/**
 An executor's metrics over a whole run: Setup calls, notifications and the
 periodic report interleave in any order.  Setup and Notify hold the executor's
 lock and are one step each; a report is one step per unit present at the cue.
 */
module Metering {
  import opened Int64
  import opened Wrappers
  import opened Catalogue
  import opened Registry

  /** A stored row of the counters, histograms or gauges table. */
  datatype Sample = Sample(kind: string, metricID: nat, time: int, value: int64)

  datatype State = State(
    app: int,
    t: Tables,
    reg: map<string, nat>,
    store: seq<Instrument>,
    units: map<string, Unit>,
    todo: set<string>,                    // units of the current cue still to be reported
    samples: seq<Sample>,
    // history
    notified: map<string, seq<int64>>,    // the values accepted for each unit
    source: seq<string>,                  // the unit behind each sample
    seen: seq<nat>)                       // how many values it had been notified of

  datatype Action =
    | Setup(groups: seq<Group>, answered: nat)  // the first `answered` calls to the master succeed
    | Notify(title: string, value: int64)
    | Cue
    | Report(title: string, time: int, saved: bool)

  function Init(app: int, t: Tables): State {
    State(app, t, map[], [], map[], {}, [], map[], [], [])
  }

  function Start(s: State): Build {
    Build(Walk(s.t, 0, 0, 0), s.reg, s.store, map[])
  }

  /** The paths that a Setup call gets through. */
  function Reached(groups: seq<Group>, answered: nat): seq<Path> {
    Visited(SetupCall(0, groups, answered))
  }

  predicate Complete(groups: seq<Group>, answered: nat) {
    |Flatten(groups)| <= answered
  }

  function Built(s: State, groups: seq<Group>, answered: nat): Build {
    RegisterAll(Start(s), s.app, Reached(groups, answered))
  }

  /** Setup: what the walk did stays, but the local units are merged only when it got to the end. */
  function SetupEffect(s: State, groups: seq<Group>, answered: nat): State {
    var b := Built(s, groups, answered);
    var s' := s.(t := b.w.t, reg := b.reg, store := b.store);
    if Complete(groups, answered) then
      s'.(units := s.units + b.local, notified := s.notified + map t | t in b.local :: [])
    else s'
  }

  /** The title has a unit; in every state of a run this is just membership in `units`. */
  predicate Bound(s: State, title: string) {
    title in s.units && s.units[title].inst < |s.store| && title in s.notified
  }

  function NotifyEffect(s: State, title: string, value: int64): State {
    if Bound(s, title) then
      var i := s.units[title].inst;
      s.(store := s.store[i := Observe(s.store[i], value)],
         notified := s.notified[title := s.notified[title] + [value]])
    else s
  }

  function ReportEffect(s: State, title: string, time: int, saved: bool): State {
    var s' := s.(todo := s.todo - {title});
    if saved && Bound(s, title) then
      var u := s.units[title];
      s'.(samples := s.samples + [Sample(u.mtype, u.metricID, time, Content(s.store[u.inst]))],
          source := s.source + [title],
          seen := s.seen + [|s.notified[title]|])
    else s'
  }

  predicate Enabled(s: State, a: Action) {
    match a
    case Setup(_, _) => true
    case Notify(_, _) => true
    case Cue => s.todo == {}
    case Report(title, _, _) => title in s.todo
  }

  function Apply(s: State, a: Action): State {
    match a
    case Setup(groups, answered) => SetupEffect(s, groups, answered)
    case Notify(title, value) => NotifyEffect(s, title, value)
    case Cue => s.(todo := s.units.Keys)
    case Report(title, time, saved) => ReportEffect(s, title, time, saved)
  }

  predicate Valid(s: State, acts: seq<Action>)
    decreases |acts|, 0
  {
    acts == [] ||
    (Valid(s, acts[..|acts| - 1]) && Enabled(After(s, acts[..|acts| - 1]), acts[|acts| - 1]))
  }

  function After(s: State, acts: seq<Action>): State
    requires Valid(s, acts)
    decreases |acts|, 1
  {
    if acts == [] then s else Apply(After(s, acts[..|acts| - 1]), acts[|acts| - 1])
  }

  lemma Extend(s: State, acts: seq<Action>, a: Action)
    requires Valid(s, acts) && Enabled(After(s, acts), a)
    ensures Valid(s, acts + [a]) && After(s, acts + [a]) == Apply(After(s, acts), a)
  {
    assert (acts + [a])[..|acts|] == acts;
  }

  // ---------- What an instrument holds after a list of values ----------

  function Reading(mtype: string, vs: seq<int64>): Instrument {
    if vs == [] then NewInstrument(mtype) else Observe(Reading(mtype, vs[..|vs| - 1]), vs[|vs| - 1])
  }

  function Sum(vs: seq<int64>): int {
    if vs == [] then 0 else Sum(vs[..|vs| - 1]) + vs[|vs| - 1]
  }

  /** The sum, the number or the last of the values, as a 64-bit integer. */
  function Meaning(mtype: string, vs: seq<int64>): int64 {
    if mtype == COUNTER then Wrap(Sum(vs))
    else if mtype == HISTOGRAM then Wrap(|vs|)
    else if vs == [] then 0 else vs[|vs| - 1]
  }

  lemma {:induction false} ReadingMeans(mtype: string, vs: seq<int64>)
    requires Known(mtype)
    ensures Content(Reading(mtype, vs)) == Meaning(mtype, vs)
    ensures Reading(mtype, vs).Counter? <==> mtype == "counter"
    ensures Reading(mtype, vs).Histogram? <==> mtype == "histogram"
    ensures Reading(mtype, vs).Gauge? <==> mtype == "gauge"
  {
    if vs != [] {
      var n := |vs| - 1;
      ReadingMeans(mtype, vs[..n]);
      WrapAdd(Sum(vs[..n]), vs[n]);
      WrapAdd(n, 1);
    }
  }

  // ---------- The invariant ----------

  /** Units are registered, under their own title, and point to the registered instrument. */
  predicate RegistryOk(s: State) {
    && Indexed(s.reg, s.store)
    && forall t | t in s.units ::
         t in s.reg && s.reg[t] == s.units[t].inst && s.units[t].title == t && Known(s.units[t].mtype)
  }

  /** A unit's metric id is that of a metric row with its title and type. */
  predicate IdsOk(s: State) {
    && NoTwins(s.t) && Resolved(s.t)
    && forall t | t in s.units ::
         s.units[t].metricID < |s.t.metrics| && s.t.metrics[s.units[t].metricID].title == t
         && s.t.metrics[s.units[t].metricID].mtype == s.units[t].mtype
  }

  /** An instrument holds what the values notified for its unit amount to. */
  predicate ValuesOk(s: State) {
    && s.notified.Keys == s.units.Keys
    && forall t | t in s.units :: ValueOk(s, t)
  }

  predicate ValueOk(s: State, t: string)
    requires t in s.units
  {
    && t in s.notified && s.units[t].inst < |s.store|
    && s.store[s.units[t].inst] == Reading(s.units[t].mtype, s.notified[t])
  }

  /** Sample k was read off its unit after the first seen[k] values. */
  predicate SampleOk(s: State, k: nat)
    requires k < |s.samples| == |s.source| == |s.seen|
  {
    && s.source[k] in s.units && s.source[k] in s.notified
    && s.samples[k].metricID == s.units[s.source[k]].metricID
    && s.samples[k].kind == s.units[s.source[k]].mtype
    && s.seen[k] <= |s.notified[s.source[k]]|
    && s.samples[k].value == Content(Reading(s.units[s.source[k]].mtype, s.notified[s.source[k]][..s.seen[k]]))
  }

  predicate SamplesOk(s: State) {
    && |s.samples| == |s.source| == |s.seen|
    && (forall k | 0 <= k < |s.samples| :: SampleOk(s, k))
    && (forall k, l | 0 <= k < l < |s.samples| && s.source[k] == s.source[l] :: s.seen[k] <= s.seen[l])
  }

  ghost predicate Inv(s: State) {
    RegistryOk(s) && IdsOk(s) && ValuesOk(s) && SamplesOk(s) && s.todo <= s.units.Keys
  }

  lemma SetupFacts(s: State, groups: seq<Group>, answered: nat)
    requires RegistryOk(s) && IdsOk(s)
    ensures var b := Built(s, groups, answered);
            && NoTwins(b.w.t) && Resolved(b.w.t) && RegistryGrew(Start(s), b) && Grows(s.t, b.w.t)
    ensures forall t :: TitleOk(Start(s), Built(s, groups, answered), s.app, Reached(groups, answered), t)
  {
    var ps := Reached(groups, answered);
    VisitedIsScoped(SetupCall(0, groups, answered));
    SetupRegisters(Start(s), s.app, ps, "");
    WalkGrows(Start(s).w, s.app, ps);
    RegisteringWalks(Start(s), s.app, ps);
    forall t ensures TitleOk(Start(s), Built(s, groups, answered), s.app, ps, t) {
      SetupRegisters(Start(s), s.app, ps, t);
    }
  }

  lemma {:induction false} WalkGrows(w: Walk, app: int, ps: seq<Path>)
    ensures Grows(w.t, VisitAll(w, app, ps).t)
  {
    if ps != [] {
      WalkGrows(w, app, ps[..|ps| - 1]);
      VisitGrows(VisitAll(w, app, ps[..|ps| - 1]), app, ps[|ps| - 1]);
    }
  }

  /** The units Setup adds are good, new, and have seen nothing. */
  lemma NewUnits(s: State, groups: seq<Group>, answered: nat, t: string)
    requires RegistryOk(s) && IdsOk(s) && t in Built(s, groups, answered).local
    ensures var b := Built(s, groups, answered);
            var u := b.local[t];
            && t !in s.units && t !in s.reg
            && u.title == t && Known(u.mtype) && t in b.reg && b.reg[t] == u.inst
            && |s.store| <= u.inst < |b.store| && b.store[u.inst] == NewInstrument(u.mtype)
            && u.metricID < |b.w.t.metrics| && b.w.t.metrics[u.metricID].title == t
            && b.w.t.metrics[u.metricID].mtype == u.mtype
  {
    SetupFacts(s, groups, answered);
    assert TitleOk(Start(s), Built(s, groups, answered), s.app, Reached(groups, answered), t);
  }

  lemma SetupKeepsTables(s: State, groups: seq<Group>, answered: nat)
    requires RegistryOk(s) && IdsOk(s)
    ensures RegistryOk(Apply(s, Setup(groups, answered))) && IdsOk(Apply(s, Setup(groups, answered)))
  {
    SetupFacts(s, groups, answered);
    forall t | t in Built(s, groups, answered).local ensures t !in s.units {
      NewUnits(s, groups, answered, t);
    }
    var s' := Apply(s, Setup(groups, answered));
    forall t | t in s'.units
      ensures t in s'.reg && s'.reg[t] == s'.units[t].inst && s'.units[t].title == t && Known(s'.units[t].mtype)
      ensures s'.units[t].metricID < |s'.t.metrics| && s'.t.metrics[s'.units[t].metricID].title == t
              && s'.t.metrics[s'.units[t].metricID].mtype == s'.units[t].mtype
    {
      if t in Built(s, groups, answered).local {
        NewUnits(s, groups, answered, t);
      }
    }
  }

  lemma SetupKeepsValue(s: State, groups: seq<Group>, answered: nat, t: string)
    requires RegistryOk(s) && IdsOk(s) && ValuesOk(s) && t in Apply(s, Setup(groups, answered)).units
    ensures ValueOk(Apply(s, Setup(groups, answered)), t)
  {
    SetupFacts(s, groups, answered);
    if t in Built(s, groups, answered).local {
      NewUnits(s, groups, answered, t);
    } else {
      assert ValueOk(s, t);
    }
  }

  lemma SetupKeepsValues(s: State, groups: seq<Group>, answered: nat)
    requires RegistryOk(s) && IdsOk(s) && ValuesOk(s)
    ensures ValuesOk(Apply(s, Setup(groups, answered)))
  {
    forall t | t in Apply(s, Setup(groups, answered)).units ensures ValueOk(Apply(s, Setup(groups, answered)), t) {
      SetupKeepsValue(s, groups, answered, t);
    }
  }

  /** Existing units and what was notified for them survive any step. */
  lemma SetupKeepsUnits(s: State, groups: seq<Group>, answered: nat, t: string)
    requires RegistryOk(s) && IdsOk(s) && t in s.units
    ensures var s' := Apply(s, Setup(groups, answered));
            && t in s'.units && s'.units[t] == s.units[t]
            && (t in s.notified ==> t in s'.notified && s'.notified[t] == s.notified[t])
  {
    if t in Built(s, groups, answered).local {
      NewUnits(s, groups, answered, t);
    }
  }

  lemma SetupKeepsSamples(s: State, groups: seq<Group>, answered: nat)
    requires RegistryOk(s) && IdsOk(s) && SamplesOk(s)
    ensures SamplesOk(Apply(s, Setup(groups, answered)))
  {
    forall k | 0 <= k < |s.samples| ensures SampleOk(Apply(s, Setup(groups, answered)), k) {
      assert SampleOk(s, k);
      SetupKeepsUnits(s, groups, answered, s.source[k]);
    }
  }

  lemma NotifyKeepsValues(s: State, title: string, value: int64)
    requires RegistryOk(s) && ValuesOk(s)
    ensures ValuesOk(Apply(s, Notify(title, value))) && RegistryOk(Apply(s, Notify(title, value)))
  {
    if Bound(s, title) {
      var vs := s.notified[title];
      assert (vs + [value])[..|vs|] == vs;
    }
  }

  lemma NotifyKeepsSamples(s: State, title: string, value: int64)
    requires SamplesOk(s)
    ensures SamplesOk(Apply(s, Notify(title, value)))
  {
    var s' := Apply(s, Notify(title, value));
    forall k | 0 <= k < |s.samples| ensures SampleOk(s', k) {
      assert SampleOk(s, k);
      if s.source[k] == title && Bound(s, title) {
        assert s'.notified[title][..s.seen[k]] == s.notified[title][..s.seen[k]];
      }
    }
  }

  lemma ReportKeepsSamples(s: State, title: string, time: int, saved: bool)
    requires ValuesOk(s) && SamplesOk(s)
    ensures SamplesOk(Apply(s, Report(title, time, saved)))
  {
    var s' := Apply(s, Report(title, time, saved));
    forall k | 0 <= k < |s'.samples| ensures SampleOk(s', k) {
      if k < |s.samples| {
        assert SampleOk(s, k);
      } else {
        assert s.notified[title][..|s.notified[title]|] == s.notified[title];
      }
    }
    forall k, l | 0 <= k < l < |s'.samples| && s'.source[k] == s'.source[l] ensures s'.seen[k] <= s'.seen[l] {
      assert SampleOk(s, k);
    }
  }

  lemma StepKeepsInv(s: State, a: Action)
    requires Inv(s) && Enabled(s, a)
    ensures Inv(Apply(s, a))
  {
    match a
    case Setup(groups, answered) =>
      SetupKeepsTables(s, groups, answered);
      SetupKeepsValues(s, groups, answered);
      SetupKeepsSamples(s, groups, answered);
    case Notify(title, value) =>
      NotifyKeepsValues(s, title, value);
      NotifyKeepsSamples(s, title, value);
    case Report(title, time, saved) =>
      ReportKeepsSamples(s, title, time, saved);
    case Cue =>
      forall k | 0 <= k < |s.samples| ensures SampleOk(Apply(s, a), k) {
        assert SampleOk(s, k);
      }
  }

  lemma {:induction false} RunKeepsInv(app: int, t: Tables, acts: seq<Action>)
    requires NoTwins(t) && Resolved(t) && Valid(Init(app, t), acts)
    ensures Inv(After(Init(app, t), acts)) && After(Init(app, t), acts).app == app
  {
    if acts != [] {
      var n := |acts| - 1;
      RunKeepsInv(app, t, acts[..n]);
      StepKeepsInv(After(Init(app, t), acts[..n]), acts[n]);
    }
  }

  // ---------- Conservation ----------

  /** The metric id of a unit is its alone. */
  lemma MetricIdsAreInjective(s: State, t: string, u: string)
    requires IdsOk(s) && t in s.units && u in s.units && s.units[t].metricID == s.units[u].metricID
    ensures t == u
  {
  }

  /** Sample k reports the first n values accepted for the title. */
  predicate Reports(s: State, k: nat, title: string, n: nat)
    requires k < |s.samples| && title in s.units && title in s.notified
  {
    && n <= |s.notified[title]|
    && s.samples[k].kind == s.units[title].mtype
    && s.samples[k].value == Meaning(s.units[title].mtype, s.notified[title][..n])
  }

  lemma SampleReports(s: State, k: nat, title: string)
    requires Inv(s) && k < |s.samples| && title in s.units && s.samples[k].metricID == s.units[title].metricID
    ensures s.source[k] == title && Reports(s, k, title, s.seen[k])
  {
    assert SampleOk(s, k);
    MetricIdsAreInjective(s, s.source[k], title);
    ReadingMeans(s.units[title].mtype, s.notified[title][..s.seen[k]]);
  }

  /**
   At any point of any interleaving of Setup, Notify and reports, every stored row
   with a unit's metric id is in the table of the unit's type and holds the sum,
   the number or the last of the first so many values accepted for its title, and
   of two such rows the later one accounts for at least as many values.
   */
  lemma MetricsAreConserved(app: int, t: Tables, acts: seq<Action>, title: string, k: nat, l: nat)
    requires NoTwins(t) && Resolved(t) && Valid(Init(app, t), acts)
    requires var s := After(Init(app, t), acts);
             && title in s.units && k <= l < |s.samples|
             && s.samples[k].metricID == s.units[title].metricID == s.samples[l].metricID
    ensures var s := After(Init(app, t), acts);
            && title in s.notified
            && exists n: nat, m: nat :: n <= m && Reports(s, k, title, n) && Reports(s, l, title, m)
  {
    RunKeepsInv(app, t, acts);
    var s := After(Init(app, t), acts);
    SampleReports(s, k, title);
    SampleReports(s, l, title);
  }

  // ---------- The values a run notifies ----------

  /** The values of the notifications for this title, in their order. */
  function Values(acts: seq<Action>, title: string): seq<int64> {
    if acts == [] then []
    else
      var last := acts[|acts| - 1];
      Values(acts[..|acts| - 1], title) + if last.Notify? && last.title == title then [last.value] else []
  }

  /** The title has a unit, and these values have been accepted for it. */
  predicate Accepted(s: State, title: string, vs: seq<int64>) {
    title in s.units && title in s.notified && s.notified[title] == vs
  }

  lemma AcceptedStep(s: State, a: Action, title: string, vs: seq<int64>)
    requires Inv(s) && Enabled(s, a) && Accepted(s, title, vs)
    ensures Accepted(Apply(s, a), title, vs + if a.Notify? && a.title == title then [a.value] else [])
  {
    if a.Setup? {
      SetupKeepsUnits(s, a.groups, a.answered, title);
    } else {
      assert ValueOk(s, title);
    }
  }

  /** What has been accepted for a title with a unit grows by exactly the values notified for it. */
  lemma {:induction false} AcceptedGrows(s: State, acts: seq<Action>, title: string, vs: seq<int64>)
    requires Inv(s) && Valid(s, acts) && Accepted(s, title, vs)
    ensures Accepted(After(s, acts), title, vs + Values(acts, title))
  {
    if acts == [] {
      assert vs + [] == vs;
    } else {
      var n := |acts| - 1;
      AcceptedGrows(s, acts[..n], title, vs);
      BindingsAreStable(s, acts[..n]);
      AcceptedStep(After(s, acts[..n]), acts[n], title, vs + Values(acts[..n], title));
      ValuesSnoc(acts, title, vs);
    }
  }

  lemma ValuesSnoc(acts: seq<Action>, title: string, vs: seq<int64>)
    requires acts != []
    ensures var last := acts[|acts| - 1];
            vs + Values(acts, title) ==
            vs + Values(acts[..|acts| - 1], title) + if last.Notify? && last.title == title then [last.value] else []
  {
  }

  /** The action at position b is the Setup that gives the title its unit. */
  ghost predicate BindsAt(s: State, acts: seq<Action>, b: nat, title: string) {
    && b < |acts| && Valid(s, acts[..b]) && Enabled(After(s, acts[..b]), acts[b])
    && title !in After(s, acts[..b]).units && title in Apply(After(s, acts[..b]), acts[b]).units
  }

  lemma BindingStartsEmpty(s: State, a: Action, title: string)
    requires Enabled(s, a) && title !in s.units && title in Apply(s, a).units
    ensures a.Setup? && Accepted(Apply(s, a), title, [])
  {
  }

  lemma {:induction false} Suffix(s: State, acts: seq<Action>, k: nat)
    requires Valid(s, acts) && k <= |acts|
    ensures Valid(s, acts[..k]) && Valid(After(s, acts[..k]), acts[k..])
    ensures After(After(s, acts[..k]), acts[k..]) == After(s, acts)
  {
    if k == |acts| {
      assert acts[..k] == acts && acts[k..] == [];
    } else {
      var n := |acts| - 1;
      Suffix(s, acts[..n], k);
      assert acts[..n][..k] == acts[..k];
      assert acts[k..][..n - k] == acts[..n][k..];
    }
  }

  lemma {:induction false} FirstBinding(s: State, acts: seq<Action>, title: string) returns (b: nat)
    requires Valid(s, acts) && title !in s.units && title in After(s, acts).units
    ensures BindsAt(s, acts, b, title)
  {
    var n := |acts| - 1;
    if title in After(s, acts[..n]).units {
      b := FirstBinding(s, acts[..n], title);
      assert acts[..n][..b] == acts[..b];
    } else {
      b := n;
    }
  }

  lemma BoundAt(s: State, acts: seq<Action>, b: nat, title: string)
    requires Valid(s, acts) && BindsAt(s, acts, b, title)
    ensures Valid(s, acts[..b + 1]) && Accepted(After(s, acts[..b + 1]), title, [])
  {
    Extend(s, acts[..b], acts[b]);
    assert acts[..b] + [acts[b]] == acts[..b + 1];
    BindingStartsEmpty(After(s, acts[..b]), acts[b], title);
  }

  /** Everything accepted for a title is what was notified for it since it got its unit. */
  lemma NotifiedSinceBound(app: int, t: Tables, acts: seq<Action>, b: nat, title: string)
    requires NoTwins(t) && Resolved(t) && Valid(Init(app, t), acts) && BindsAt(Init(app, t), acts, b, title)
    ensures Accepted(After(Init(app, t), acts), title, Values(acts[b + 1..], title))
  {
    BoundAt(Init(app, t), acts, b, title);
    Suffix(Init(app, t), acts, b + 1);
    RunKeepsInv(app, t, acts[..b + 1]);
    AcceptedGrows(After(Init(app, t), acts[..b + 1]), acts[b + 1..], title, []);
    assert [] + Values(acts[b + 1..], title) == Values(acts[b + 1..], title);
  }

  /** Position p is the report that stored sample k, and this is what it stored. */
  ghost predicate StoredAt(s: State, acts: seq<Action>, p: nat, k: nat, sample: Sample) {
    && p < |acts| && Valid(s, acts[..p]) && acts[p].Report? && acts[p].saved
    && var before := After(s, acts[..p]);
       && |before.samples| == k && acts[p].title in before.units && acts[p].title in before.notified
       && sample == Sample(before.units[acts[p].title].mtype, before.units[acts[p].title].metricID, acts[p].time,
                           Meaning(before.units[acts[p].title].mtype, before.notified[acts[p].title]))
  }

  lemma StepKeepsSampleList(s: State, a: Action)
    requires Inv(s) && Enabled(s, a)
    ensures var s' := Apply(s, a);
            && s.samples <= s'.samples && |s'.samples| <= |s.samples| + 1
            && (|s'.samples| > |s.samples| ==>
                  && a.Report? && a.saved && a.title in s.units && a.title in s.notified
                  && s'.samples[|s.samples|] ==
                     Sample(s.units[a.title].mtype, s.units[a.title].metricID, a.time,
                            Meaning(s.units[a.title].mtype, s.notified[a.title])))
  {
    if a.Report? && a.title in s.units {
      assert ValueOk(s, a.title);
      ReadingMeans(s.units[a.title].mtype, s.notified[a.title]);
    }
  }

  /** Every stored row was stored by a report, with all that had been accepted by then. */
  lemma {:induction false} SampleWasStored(app: int, t: Tables, acts: seq<Action>, k: nat) returns (p: nat)
    requires NoTwins(t) && Resolved(t) && Valid(Init(app, t), acts) && k < |After(Init(app, t), acts).samples|
    ensures StoredAt(Init(app, t), acts, p, k, After(Init(app, t), acts).samples[k])
  {
    var n := |acts| - 1;
    var s := After(Init(app, t), acts[..n]);
    RunKeepsInv(app, t, acts[..n]);
    StepKeepsSampleList(s, acts[n]);
    if k < |s.samples| {
      p := SampleWasStored(app, t, acts[..n], k);
      assert acts[..n][..p] == acts[..p];
    } else {
      p := n;
    }
  }

  /**
   Conservation in terms of the calls alone: a stored row of a title is the report,
   at some position p of the run, of all values notified for the title from the
   Setup that bound it, at position b, up to p.
   */
  lemma StoredRowsReportCalls(app: int, t: Tables, acts: seq<Action>, title: string, k: nat, b: nat)
    returns (p: nat)
    requires NoTwins(t) && Resolved(t) && Valid(Init(app, t), acts) && BindsAt(Init(app, t), acts, b, title)
    requires var s := After(Init(app, t), acts);
             title in s.units && k < |s.samples| && s.samples[k].metricID == s.units[title].metricID
    ensures var s := After(Init(app, t), acts);
            && b < p < |acts| && acts[p] == Report(title, s.samples[k].time, true)
            && s.samples[k].kind == s.units[title].mtype
            && s.samples[k].value == Meaning(s.units[title].mtype, Values(acts[b + 1..p], title))
  {
    p := SampleWasStored(app, t, acts, k);
    ReportIsOfTitle(app, t, acts, title, k, p);
    BoundBefore(app, t, acts, title, b, p);
    assert acts[..p][..b] == acts[..b] && acts[..p][b + 1..] == acts[b + 1..p];
    Suffix(Init(app, t), acts, p);
    NotifiedSinceBound(app, t, acts[..p], b, title);
  }

  lemma ReportIsOfTitle(app: int, t: Tables, acts: seq<Action>, title: string, k: nat, p: nat)
    requires NoTwins(t) && Resolved(t) && Valid(Init(app, t), acts)
    requires var s := After(Init(app, t), acts);
             title in s.units && k < |s.samples| && s.samples[k].metricID == s.units[title].metricID
    requires StoredAt(Init(app, t), acts, p, k, After(Init(app, t), acts).samples[k])
    ensures acts[p].title == title && title in After(Init(app, t), acts[..p]).units
    ensures After(Init(app, t), acts[..p]).units[title] == After(Init(app, t), acts).units[title]
  {
    Suffix(Init(app, t), acts, p);
    RunKeepsInv(app, t, acts[..p]);
    RunKeepsInv(app, t, acts);
    BindingsAreStable(After(Init(app, t), acts[..p]), acts[p..]);
    MetricIdsAreInjective(After(Init(app, t), acts), acts[p].title, title);
  }

  lemma BoundBefore(app: int, t: Tables, acts: seq<Action>, title: string, b: nat, p: nat)
    requires NoTwins(t) && Resolved(t) && Valid(Init(app, t), acts) && BindsAt(Init(app, t), acts, b, title)
    requires p <= |acts| && Valid(Init(app, t), acts[..p]) && title in After(Init(app, t), acts[..p]).units
    ensures b < p
  {
    if p <= b {
      Suffix(Init(app, t), acts[..b], p);
      assert acts[..b][..p] == acts[..p];
      RunKeepsInv(app, t, acts[..p]);
      BindingsAreStable(After(Init(app, t), acts[..p]), acts[..b][p..]);
    }
  }

  predicate NoneNegative(vs: seq<int64>) {
    forall i | 0 <= i < |vs| :: 0 <= vs[i]
  }

  lemma {:induction false} SumGrows(vs: seq<int64>, n: nat)
    requires n <= |vs| && NoneNegative(vs)
    ensures 0 <= Sum(vs[..n]) <= Sum(vs)
  {
    if vs == [] {
      assert vs[..n] == [];
    } else if n == |vs| {
      assert vs[..n] == vs;
      SumGrows(vs[..n - 1], n - 1);
      assert vs[..n - 1][..n - 1] == vs[..n - 1];
    } else {
      SumGrows(vs[..|vs| - 1], n);
      assert vs[..|vs| - 1][..n] == vs[..n];
    }
  }

  /** What a counter reports never falls while these values come in. */
  ghost predicate NeverFalls(vs: seq<int64>) {
    forall n: nat, m: nat | n <= m <= |vs| :: Meaning(COUNTER, vs[..n]) <= Meaning(COUNTER, vs[..m])
  }

  lemma CounterGrows(vs: seq<int64>, n: nat, m: nat)
    requires n <= m <= |vs| && NoneNegative(vs) && Sum(vs) < TWO63
    ensures Meaning(COUNTER, vs[..n]) <= Meaning(COUNTER, vs[..m])
  {
    SumGrows(vs, m);
    assert vs[..m][..n] == vs[..n];
    SumGrows(vs[..m], n);
  }

  /** The value with which the sum first exceeds 63 bits takes the counter below zero. */
  lemma {:induction false} Crossing(vs: seq<int64>) returns (n: nat)
    requires NoneNegative(vs) && TWO63 <= Sum(vs)
    ensures n < |vs| && Meaning(COUNTER, vs[..n + 1]) < 0 <= Meaning(COUNTER, vs[..n])
  {
    var k := |vs| - 1;
    if TWO63 <= Sum(vs[..k]) {
      n := Crossing(vs[..k]);
      assert vs[..k][..n] == vs[..n] && vs[..k][..n + 1] == vs[..n + 1];
    } else {
      n := k;
      SumGrows(vs, k);
      assert vs[..k + 1] == vs;
      CrossedWrap(Sum(vs[..k]), vs[k]);
    }
  }

  lemma CrossedWrap(sum: int, v: int64)
    requires 0 <= sum < TWO63 && 0 <= v && TWO63 <= sum + v
    ensures Wrap(sum + v) == sum + v - TWO64 < 0
  {
  }

  /** A counter of non-negative values never falls if and only if their sum fits in 63 bits. */
  lemma NeverFallsIff(vs: seq<int64>)
    requires NoneNegative(vs)
    ensures NeverFalls(vs) <==> Sum(vs) < TWO63
  {
    if Sum(vs) < TWO63 {
      forall n: nat, m: nat | n <= m <= |vs| ensures Meaning(COUNTER, vs[..n]) <= Meaning(COUNTER, vs[..m]) {
        CounterGrows(vs, n, m);
      }
    } else {
      var n := Crossing(vs);
      assert n <= n + 1 <= |vs|;
    }
  }

  /** In this run the title has a counter, and these are all the values accepted for it. */
  ghost predicate Counts(app: int, t: Tables, acts: seq<Action>, title: string, vs: seq<int64>) {
    && NoTwins(t) && Resolved(t) && Valid(Init(app, t), acts)
    && var s := After(Init(app, t), acts);
       title in s.units && title in s.notified && s.units[title].mtype == COUNTER && s.notified[title] == vs
  }

  /** Of the two stored rows of the title, the later one, l, holds less. */
  predicate FallsBetween(s: State, title: string, k: nat, l: nat) {
    && title in s.units && k < l < |s.samples|
    && s.samples[k].metricID == s.units[title].metricID == s.samples[l].metricID
    && s.samples[l].value < s.samples[k].value
  }

  /** In every run with these values, the rows stored for the counter never go down. */
  ghost predicate RowsNeverFall(vs: seq<int64>) {
    forall app, t, acts, title, k: nat, l: nat | Counts(app, t, acts, title, vs) ::
      !FallsBetween(After(Init(app, t), acts), title, k, l)
  }

  /** The rows of a counter notified of non-negative values never go down while the total fits in 63 bits. */
  lemma CountersAreMonotone(app: int, t: Tables, acts: seq<Action>, title: string, vs: seq<int64>, k: nat, l: nat)
    requires Counts(app, t, acts, title, vs) && NoneNegative(vs) && Sum(vs) < TWO63
    ensures !FallsBetween(After(Init(app, t), acts), title, k, l)
  {
    var s := After(Init(app, t), acts);
    if FallsBetween(s, title, k, l) {
      MetricsAreConserved(app, t, acts, title, k, l);
      var n: nat, m: nat :| n <= m && Reports(s, k, title, n) && Reports(s, l, title, m);
      CounterGrows(vs, n, m);
    }
  }

  // ---------- A run in which they do go down ----------

  const EMPTY: Tables := Tables([], [], [])

  function OneCounter(title: string): seq<Group> {
    [Group("", [Graph("", "", [Metric(title, COUNTER)])])]
  }

  lemma OneCounterFlat(title: string)
    ensures Flatten(OneCounter(title)) == [GroupPath(""), GraphPath("", "", ""), MetricPath("", "", "", title, COUNTER)]
  {
    var graph := Graph("", "", [Metric(title, COUNTER)]);
    assert graph.metrics[..0] == [] && [graph][..0] == [] && OneCounter(title)[..0] == [];
    assert FlattenMetrics("", graph, graph.metrics) == [MetricPath("", "", "", title, COUNTER)];
    assert FlattenGraphs("", [graph]) == [GraphPath("", "", ""), MetricPath("", "", "", title, COUNTER)];
  }

  /** The executor has one unit, a counter, notified of vs, and no report is under way. */
  ghost predicate Counting(s: State, title: string, vs: seq<int64>) {
    && s.units.Keys == {title} && s.units[title].mtype == COUNTER
    && title in s.notified && s.notified[title] == vs && s.todo == {}
  }

  /** A complete Setup gives a new title the type of its first known declaration, and nothing has been notified yet. */
  lemma SetupGivesFirst(s: State, groups: seq<Group>, answered: nat, t: string)
    requires Inv(s) && Complete(groups, answered) && t !in s.reg && FirstKnown(Flatten(groups), t).Some?
    ensures var s', p := Apply(s, Setup(groups, answered)), FirstKnown(Flatten(groups), t).value;
            && t in s'.units && p.MetricPath? && s'.units[t].mtype == p.mtype
            && t in s'.notified && s'.notified[t] == []
  {
    SetupFacts(s, groups, answered);
    assert Reached(groups, answered) == Flatten(groups);
    assert TitleOk(Start(s), Built(s, groups, answered), s.app, Flatten(groups), t);
  }

  lemma CounterIsFirst(title: string, t: string)
    ensures FirstKnown(Flatten(OneCounter(title)), t) ==
            if t == title then Some(MetricPath("", "", "", title, COUNTER)) else None
  {
    OneCounterFlat(title);
    var g, gr, m := GroupPath(""), GraphPath("", "", ""), MetricPath("", "", "", title, COUNTER);
    FirstKnownSnoc([], g, t);
    FirstKnownSnoc([g], gr, t);
    FirstKnownSnoc([g, gr], m, t);
    assert [] + [g] == [g] && [g] + [gr] == [g, gr] && [g, gr] + [m] == [g, gr, m];
  }

  lemma CounterIsSetUp(title: string)
    ensures var s := Apply(Init(0, EMPTY), Setup(OneCounter(title), 3)); Counting(s, title, []) && s.samples == []
  {
    var s0, groups := Init(0, EMPTY), OneCounter(title);
    OneCounterFlat(title);
    StepKeepsInv(s0, Setup(groups, 3));
    CounterIsFirst(title, title);
    SetupGivesFirst(s0, groups, 3, title);
    forall t ensures t in Apply(s0, Setup(groups, 3)).units <==> t == title {
      OnlyCounter(title, t);
    }
  }

  lemma OnlyCounter(title: string, t: string)
    ensures t in Apply(Init(0, EMPTY), Setup(OneCounter(title), 3)).units ==> t == title
  {
    OneCounterFlat(title);
    CounterIsFirst(title, t);
    SetupBindsIff(Init(0, EMPTY), OneCounter(title), 3, t);
    FirstKnownIsFirst(Flatten(OneCounter(title)), t);
  }

  ghost predicate Reaches(acts: seq<Action>, s: State) {
    Valid(Init(0, EMPTY), acts) && After(Init(0, EMPTY), acts) == s
  }

  lemma ReachesNext(acts: seq<Action>, s: State, a: Action)
    requires Reaches(acts, s) && Enabled(s, a)
    ensures Reaches(acts + [a], Apply(s, a))
  {
    Extend(Init(0, EMPTY), acts, a);
  }

  lemma FirstReached(title: string) returns (acts: seq<Action>, s: State)
    ensures Reaches(acts, s) && Counting(s, title, []) && s.samples == []
  {
    CounterIsSetUp(title);
    ReachesNext([], Init(0, EMPTY), Setup(OneCounter(title), 3));
    acts, s := [] + [Setup(OneCounter(title), 3)], Apply(Init(0, EMPTY), Setup(OneCounter(title), 3));
  }

  lemma NotifyCounts(s: State, title: string, vs: seq<int64>, v: int64)
    requires Inv(s) && Counting(s, title, vs)
    ensures var s' := Apply(s, Notify(title, v));
            Counting(s', title, vs + [v]) && s'.samples == s.samples && s'.units == s.units
  {
    assert ValueOk(s, title);
  }

  lemma NotifyOne(acts: seq<Action>, s: State, title: string, vs: seq<int64>, n: nat)
    returns (acts': seq<Action>, s': State)
    requires Reaches(acts, s) && n < |vs| && Counting(s, title, vs[..n])
    ensures Reaches(acts', s') && Counting(s', title, vs[..n + 1])
    ensures s'.samples == s.samples && s'.units == s.units
  {
    assert vs[..n + 1] == vs[..n] + [vs[n]];
    RunKeepsInv(0, EMPTY, acts);
    NotifyCounts(s, title, vs[..n], vs[n]);
    ReachesNext(acts, s, Notify(title, vs[n]));
    acts', s' := acts + [Notify(title, vs[n])], Apply(s, Notify(title, vs[n]));
  }

  lemma NotifyAll(acts: seq<Action>, s: State, title: string, vs: seq<int64>, n: nat, m: nat)
    returns (acts': seq<Action>, s': State)
    requires Reaches(acts, s) && n <= m <= |vs| && Counting(s, title, vs[..n])
    ensures Reaches(acts', s') && Counting(s', title, vs[..m])
    ensures s'.samples == s.samples && s'.units == s.units
  {
    acts', s' := acts, s;
    for k := n to m
      invariant Reaches(acts', s') && Counting(s', title, vs[..k])
      invariant s'.samples == s.samples && s'.units == s.units
    {
      acts', s' := NotifyOne(acts', s', title, vs, k);
    }
  }

  lemma ReportCounts(s: State, title: string, vs: seq<int64>)
    requires Inv(s) && Counting(s, title, vs)
    ensures Enabled(s, Cue) && Enabled(Apply(s, Cue), Report(title, 0, true))
    ensures var s' := Apply(Apply(s, Cue), Report(title, 0, true));
            && Counting(s', title, vs) && s'.units == s.units
            && s'.samples == s.samples + [Sample(COUNTER, s.units[title].metricID, 0, Meaning(COUNTER, vs))]
  {
    assert ValueOk(s, title);
    ReadingMeans(COUNTER, vs);
  }

  lemma ReportOnce(acts: seq<Action>, s: State, title: string, vs: seq<int64>)
    returns (acts': seq<Action>, s': State)
    requires Reaches(acts, s) && Counting(s, title, vs)
    ensures Reaches(acts', s') && Counting(s', title, vs) && s'.units == s.units
    ensures s'.samples == s.samples + [Sample(COUNTER, s.units[title].metricID, 0, Meaning(COUNTER, vs))]
  {
    RunKeepsInv(0, EMPTY, acts);
    ReportCounts(s, title, vs);
    ReachesNext(acts, s, Cue);
    ReachesNext(acts + [Cue], Apply(s, Cue), Report(title, 0, true));
    acts', s' := acts + [Cue] + [Report(title, 0, true)], Apply(Apply(s, Cue), Report(title, 0, true));
  }

  /** A run that reports after the first n values and again after the first m, and goes on to the end. */
  lemma ReportTwice(vs: seq<int64>, n: nat, m: nat) returns (acts: seq<Action>, s: State)
    requires n <= m <= |vs|
    ensures Reaches(acts, s) && Counting(s, "", vs)
    ensures s.samples == [Sample(COUNTER, s.units[""].metricID, 0, Meaning(COUNTER, vs[..n])),
                          Sample(COUNTER, s.units[""].metricID, 0, Meaning(COUNTER, vs[..m]))]
  {
    assert vs[..0] == [] && vs[..|vs|] == vs;
    acts, s := FirstReached("");
    acts, s := NotifyAll(acts, s, "", vs, 0, n);
    acts, s := ReportOnce(acts, s, "", vs[..n]);
    acts, s := NotifyAll(acts, s, "", vs, n, m);
    acts, s := ReportOnce(acts, s, "", vs[..m]);
    acts, s := NotifyAll(acts, s, "", vs, m, |vs|);
  }

  /** With a sum past 63 bits there is a run whose second stored row is below the first. */
  lemma RowsCanFall(vs: seq<int64>) returns (acts: seq<Action>)
    requires NoneNegative(vs) && TWO63 <= Sum(vs)
    ensures Counts(0, EMPTY, acts, "", vs) && FallsBetween(After(Init(0, EMPTY), acts), "", 0, 1)
  {
    var n := Crossing(vs);
    var s;
    acts, s := ReportTwice(vs, n, n + 1);
  }

  /** In all runs, the rows of a counter of these values never go down if and only if their sum fits in 63 bits. */
  lemma RowsNeverFallIff(vs: seq<int64>)
    requires NoneNegative(vs)
    ensures RowsNeverFall(vs) <==> Sum(vs) < TWO63
  {
    if Sum(vs) < TWO63 {
      forall app, t, acts, title, k: nat, l: nat | Counts(app, t, acts, title, vs)
        ensures !FallsBetween(After(Init(app, t), acts), title, k, l)
      {
        CountersAreMonotone(app, t, acts, title, vs, k, l);
      }
    } else {
      var acts := RowsCanFall(vs);
    }
  }

  /** Notify reports ErrIDNotFound exactly for the titles without a unit, and then changes nothing. */
  lemma NotifyFindsUnits(app: int, t: Tables, acts: seq<Action>, title: string, value: int64)
    requires NoTwins(t) && Resolved(t) && Valid(Init(app, t), acts)
    ensures var s := After(Init(app, t), acts);
            && (Bound(s, title) <==> title in s.units)
            && (title !in s.units <==> Apply(s, Notify(title, value)) == s)
  {
    RunKeepsInv(app, t, acts);
    var s := After(Init(app, t), acts);
    if title in s.units {
      assert |Apply(s, Notify(title, value)).notified[title]| == |s.notified[title]| + 1;
    }
  }

  // ---------- Stable binding ----------

  /** A title registered without a unit: Notify will not find it. */
  predicate Lost(s: State, t: string) {
    t in s.reg && t !in s.units
  }

  /** Nothing bound, registered or lost in s is otherwise in s'. */
  ghost predicate KeepsBindings(s: State, s': State) {
    && (forall t | t in s.units :: t in s'.units && s'.units[t] == s.units[t])
    && (forall t | t in s.reg :: t in s'.reg && s'.reg[t] == s.reg[t])
    && (forall t | Lost(s, t) :: Lost(s', t))
  }

  lemma SetupKeepsBindings(s: State, groups: seq<Group>, answered: nat)
    requires RegistryOk(s) && IdsOk(s)
    ensures KeepsBindings(s, Apply(s, Setup(groups, answered)))
  {
    SetupFacts(s, groups, answered);
    forall t | t in Built(s, groups, answered).local ensures t !in s.reg {
      NewUnits(s, groups, answered, t);
    }
  }

  lemma StepKeepsBindings(s: State, a: Action)
    requires RegistryOk(s) && IdsOk(s) && Enabled(s, a)
    ensures KeepsBindings(s, Apply(s, a))
  {
    if a.Setup? {
      SetupKeepsBindings(s, a.groups, a.answered);
    }
  }

  /**
   Through any further steps, failing Setup calls included, a title keeps its
   unit, its type, its metric id and its instrument; and a title that a failing
   Setup has registered without binding it is never bound again.
   */
  lemma {:induction false} BindingsAreStable(s: State, acts: seq<Action>)
    requires Inv(s) && Valid(s, acts)
    ensures Inv(After(s, acts)) && KeepsBindings(s, After(s, acts))
  {
    if acts != [] {
      var n := |acts| - 1;
      BindingsAreStable(s, acts[..n]);
      StepKeepsInv(After(s, acts[..n]), acts[n]);
      StepKeepsBindings(After(s, acts[..n]), acts[n]);
    }
  }

  /** In every state of a run a unit points to an instrument of its own type. */
  lemma InstrumentsMatch(app: int, t: Tables, acts: seq<Action>, title: string)
    requires NoTwins(t) && Resolved(t) && Valid(Init(app, t), acts) && title in After(Init(app, t), acts).units
    ensures var s := After(Init(app, t), acts);
            && s.units[title].title == title && s.units[title].inst < |s.store|
            && OfType(s.store[s.units[title].inst], s.units[title].mtype)
  {
    RunKeepsInv(app, t, acts);
    var s := After(Init(app, t), acts);
    assert ValueOk(s, title);
    ReadingMeans(s.units[title].mtype, s.notified[title]);
  }

  /**
   A complete Setup binds a title if and only if it was bound already, or it is
   declared with a known type and was not registered; a Setup that fails binds none.
   */
  lemma SetupBindsIff(s: State, groups: seq<Group>, answered: nat, t: string)
    requires Inv(s)
    ensures var s' := Apply(s, Setup(groups, answered));
            t in s'.units <==>
              t in s.units
              || (Complete(groups, answered) && t !in s.reg
                  && exists p | p in Flatten(groups) ::
                       p.MetricPath? && p.title == t && p.mtype in {"counter", "histogram", "gauge"})
  {
    SetupFacts(s, groups, answered);
    FirstKnownIsFirst(Reached(groups, answered), t);
    assert TitleOk(Start(s), Built(s, groups, answered), s.app, Reached(groups, answered), t);
  }

  /** A Setup loses exactly the new titles that it got as far as registering before it failed. */
  lemma FailedSetupLoses(s: State, groups: seq<Group>, answered: nat, t: string)
    requires Inv(s)
    ensures Lost(Apply(s, Setup(groups, answered)), t) <==>
              Lost(s, t)
              || (!Complete(groups, answered) && t !in s.reg
                  && exists p | p in Reached(groups, answered) ::
                       p.MetricPath? && p.title == t && p.mtype in {"counter", "histogram", "gauge"})
  {
    SetupFacts(s, groups, answered);
    FirstKnownIsFirst(Reached(groups, answered), t);
    assert TitleOk(Start(s), Built(s, groups, answered), s.app, Reached(groups, answered), t);
  }

  // ---------- Repeating a Setup ----------

  ghost predicate AllRegistered(reg: map<string, nat>, ps: seq<Path>) {
    forall p | p in ps && p.MetricPath? && Known(p.mtype) :: p.title in reg
  }

  lemma {:induction false} RegistersNothing(b: Build, app: int, ps: seq<Path>)
    requires AllRegistered(b.reg, ps)
    ensures RegisterAll(b, app, ps) == b.(w := VisitAll(b.w, app, ps))
  {
    if ps != [] {
      var n := |ps| - 1;
      assert forall p | p in ps[..n] :: p in ps;
      assert ps[n] in ps;
      RegistersNothing(b, app, ps[..n]);
    }
  }

  lemma SetupRegistersAll(s: State, groups: seq<Group>, answered: nat)
    requires RegistryOk(s) && IdsOk(s)
    ensures AllRegistered(Built(s, groups, answered).reg, Reached(groups, answered))
  {
    var ps := Reached(groups, answered);
    SetupFacts(s, groups, answered);
    forall p | p in ps && p.MetricPath? && Known(p.mtype) ensures p.title in Built(s, groups, answered).reg {
      FirstKnownIsFirst(ps, p.title);
      assert TitleOk(Start(s), Built(s, groups, answered), s.app, ps, p.title);
    }
  }

  lemma SetupFillsCatalogue(s: State, groups: seq<Group>, answered: nat)
    requires IdsOk(s)
    ensures AllThere(Built(s, groups, answered).w.t, s.app, Reached(groups, answered))
  {
    var ps := Reached(groups, answered);
    VisitedIsScoped(SetupCall(0, groups, answered));
    RegisteringWalks(Start(s), s.app, ps);
    forall p | p in ps ensures HasPath(Built(s, groups, answered).w.t, s.app, p) {
      WalkIsExact(Start(s).w, s.app, ps, s.app, p);
    }
  }

  lemma NothingLeftToBuild(s: State, groups: seq<Group>, answered: nat)
    requires IdsOk(s)
    requires AllRegistered(s.reg, Reached(groups, answered)) && AllThere(s.t, s.app, Reached(groups, answered))
    ensures var b := Built(s, groups, answered);
            b.w.t == s.t && b.reg == s.reg && b.store == s.store && b.local == map[]
    ensures Apply(s, Setup(groups, answered)) == s
  {
    VisitedIsScoped(SetupCall(0, groups, answered));
    RegistersNothing(Start(s), s.app, Reached(groups, answered));
    RepeatedWalk(Start(s).w, s.app, Reached(groups, answered));
    assert s.units + map[] == s.units && s.notified + map[] == s.notified;
  }

  /** Repeating a Setup, complete or cut short at the same call, changes nothing at all. */
  lemma RepeatedSetupChangesNothing(s: State, groups: seq<Group>, answered: nat)
    requires RegistryOk(s) && IdsOk(s)
    ensures var s' := Apply(s, Setup(groups, answered)); Apply(s', Setup(groups, answered)) == s'
  {
    SetupKeepsTables(s, groups, answered);
    SetupRegistersAll(s, groups, answered);
    SetupFillsCatalogue(s, groups, answered);
    NothingLeftToBuild(Apply(s, Setup(groups, answered)), groups, answered);
  }
}
