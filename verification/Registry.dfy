/**
 The registry side of an executor: instruments, the units a driver can notify,
 and what one Setup call registers while it walks the declared tree.
 */
module Registry {
  import opened Int64
  import opened Wrappers
  import opened Catalogue

  const COUNTER: string := "counter"
  const HISTOGRAM: string := "histogram"
  const GAUGE: string := "gauge"

  predicate Known(mtype: string) {
    mtype == COUNTER || mtype == HISTOGRAM || mtype == GAUGE
  }

  // ---------- 64-bit instruments ----------

  /** A go-metrics instrument, as far as it is exact. */
  datatype Instrument = Counter(count: int64) | Histogram(observed: int64) | Gauge(value: int64)

  function NewInstrument(mtype: string): Instrument {
    if mtype == COUNTER then Counter(0) else if mtype == HISTOGRAM then Histogram(0) else Gauge(0)
  }

  /** Inc of a counter, Update of a histogram or a gauge. */
  function Observe(i: Instrument, v: int64): Instrument {
    match i
    case Counter(count) => Counter(Wrap(count + v))
    case Histogram(observed) => Histogram(Wrap(observed + 1))
    case Gauge(_) => Gauge(v)
  }

  /** What is reported of an instrument: the count of a counter or histogram, the value of a gauge. */
  function Content(i: Instrument): int64 {
    match i
    case Counter(count) => count
    case Histogram(observed) => observed
    case Gauge(value) => value
  }

  // ---------- Units ----------

  /** `inst` says which instrument of the process the unit points to. */
  datatype Unit = Unit(title: string, mtype: string, metricID: nat, inst: nat)

  /** What a Setup call has done so far; `local` is its own map of new units. */
  datatype Build = Build(w: Walk, reg: map<string, nat>, store: seq<Instrument>, local: map<string, Unit>)

  /** One path of the tree: a call to the master and, for a metric of a known type, a Register. */
  function Register(b: Build, app: int, p: Path): Build {
    var w := Visit(b.w, app, p);
    if p.MetricPath? && Known(p.mtype) && p.title !in b.reg then
      Build(w, b.reg[p.title := |b.store|], b.store + [NewInstrument(p.mtype)],
            b.local[p.title := Unit(p.title, p.mtype, w.metric, |b.store|)])
    else
      b.(w := w)
  }

  function RegisterAll(b: Build, app: int, ps: seq<Path>): Build {
    if ps == [] then b else Register(RegisterAll(b, app, ps[..|ps| - 1]), app, ps[|ps| - 1])
  }

  lemma RegisterAllSnoc(b: Build, app: int, ps: seq<Path>, p: Path)
    ensures RegisterAll(b, app, ps + [p]) == Register(RegisterAll(b, app, ps), app, p)
  {
    assert (ps + [p])[..|ps|] == ps;
  }

  lemma {:induction false} RegisterAllConcat(b: Build, app: int, ps: seq<Path>, qs: seq<Path>)
    ensures RegisterAll(b, app, ps + qs) == RegisterAll(RegisterAll(b, app, ps), app, qs)
  {
    if qs == [] {
      assert ps + qs == ps;
    } else {
      var n := |qs| - 1;
      assert ps + qs == (ps + qs[..n]) + [qs[n]];
      RegisterAllConcat(b, app, ps, qs[..n]);
      RegisterAllSnoc(b, app, ps + qs[..n], qs[n]);
    }
  }

  lemma {:induction false} RegisteringWalks(b: Build, app: int, ps: seq<Path>)
    ensures RegisterAll(b, app, ps).w == VisitAll(b.w, app, ps)
  {
    if ps != [] {
      RegisteringWalks(b, app, ps[..|ps| - 1]);
    }
  }

  // ---------- What a Setup call registers ----------

  /** Path p declares a metric with this title and one of the three types of the driver's interface. */
  predicate DeclaresTitle(p: Path, title: string) {
    p.MetricPath? && p.title == title && p.mtype in {"counter", "histogram", "gauge"}
  }

  /** The instrument is one of this type. */
  predicate OfType(i: Instrument, mtype: string) {
    || (mtype == "counter" && i.Counter?)
    || (mtype == "histogram" && i.Histogram?)
    || (mtype == "gauge" && i.Gauge?)
  }

  /** The instrument is of this type, and nothing has been observed on it. */
  predicate UnusedOfType(i: Instrument, mtype: string) {
    OfType(i, mtype) && i in {Counter(0), Histogram(0), Gauge(0)}
  }

  /** The declaration of a title that counts: the first one with a known type. */
  function FirstKnown(ps: seq<Path>, title: string): Option<Path> {
    if ps == [] then None
    else
      var before := FirstKnown(ps[..|ps| - 1], title);
      if before.None? && DeclaresTitle(ps[|ps| - 1], title) then Some(ps[|ps| - 1]) else before
  }

  lemma {:induction false} FirstKnownIsFirst(ps: seq<Path>, title: string)
    ensures FirstKnown(ps, title).None? <==> forall p | p in ps :: !DeclaresTitle(p, title)
    ensures FirstKnown(ps, title).Some? ==>
              exists k | 0 <= k < |ps| :: ps[k] == FirstKnown(ps, title).value && DeclaresTitle(ps[k], title)
                                          && forall j | 0 <= j < k :: !DeclaresTitle(ps[j], title)
  {
    if ps != [] {
      var n := |ps| - 1;
      FirstKnownIsFirst(ps[..n], title);
      assert ps == ps[..n] + [ps[n]];
      if FirstKnown(ps[..n], title).None? {
        assert forall j | 0 <= j < n :: ps[j] in ps[..n];
      }
    }
  }

  lemma FirstKnownSnoc(ps: seq<Path>, p: Path, t: string)
    ensures FirstKnown(ps + [p], t) ==
            if FirstKnown(ps, t).None? && DeclaresTitle(p, t) then Some(p) else FirstKnown(ps, t)
  {
    assert (ps + [p])[..|ps|] == ps;
  }

  /** The registry is an injective index of instruments that exist. */
  predicate Indexed(reg: map<string, nat>, store: seq<Instrument>) {
    && (forall t | t in reg :: reg[t] < |store|)
    && (forall t, u | t in reg && u in reg && reg[t] == reg[u] :: t == u)
  }

  /** The registry and the instruments only grow, and what is new in the registry is new in the local map. */
  predicate RegistryGrew(start: Build, b: Build) {
    && Indexed(b.reg, b.store)
    && start.store <= b.store
    && b.reg.Keys == start.reg.Keys + b.local.Keys && start.reg.Keys !! b.local.Keys
    && (forall t | t in start.reg :: b.reg[t] == start.reg[t])
  }

  /** Unit u is that of declaration p: its row, and a fresh instrument of its type. */
  predicate BoundTo(start: Build, b: Build, app: int, u: Unit, p: Path) {
    && p.MetricPath? && u.title == p.title && u.mtype == p.mtype && Known(p.mtype)
    && IsRowOf(b.w.t, u.metricID, app, p)
    && u.title in b.reg && b.reg[u.title] == u.inst && |start.store| <= u.inst < |b.store|
    && b.store[u.inst] == NewInstrument(u.mtype) && UnusedOfType(b.store[u.inst], u.mtype)
  }

  /** The local map has a unit for t exactly if t is new and declared, and it is that of the first declaration. */
  ghost predicate TitleOk(start: Build, b: Build, app: int, ps: seq<Path>, t: string) {
    if t in start.reg || FirstKnown(ps, t).None? then t !in b.local
    else t in b.local && b.local[t].title == t && BoundTo(start, b, app, b.local[t], FirstKnown(ps, t).value)
  }

  lemma VisitGrows(w: Walk, app: int, p: Path)
    ensures Grows(w.t, Visit(w, app, p).t)
  {
  }

  lemma RegisterGrowsRegistry(start: Build, b: Build, app: int, p: Path)
    requires RegistryGrew(start, b)
    ensures RegistryGrew(start, Register(b, app, p))
  {
  }

  lemma RegisterKeepsBound(start: Build, b: Build, app: int, p: Path, u: Unit, q: Path)
    requires Resolved(b.w.t) && BoundTo(start, b, app, u, q)
    ensures BoundTo(start, Register(b, app, p), app, u, q)
  {
    VisitGrows(b.w, app, p);
    RowsStay(b.w.t, Visit(b.w, app, p).t, u.metricID, app, q);
  }

  lemma RegisterBinds(start: Build, b: Build, app: int, ps: seq<Path>, p: Path)
    requires WalkOk(b.w, app, ps) && InScope(ps, p) && RegistryGrew(start, b)
    requires p.MetricPath? && Known(p.mtype) && p.title !in b.reg
    ensures var b' := Register(b, app, p);
            b'.local[p.title].title == p.title && BoundTo(start, b', app, b'.local[p.title], p)
  {
    VisitKeepsWalkOk(b.w, app, ps, p);
  }

  lemma RegisterKeepsTitleOk(start: Build, b: Build, app: int, ps: seq<Path>, p: Path, t: string)
    requires WalkOk(b.w, app, ps) && InScope(ps, p) && RegistryGrew(start, b) && TitleOk(start, b, app, ps, t)
    ensures TitleOk(start, Register(b, app, p), app, ps + [p], t)
  {
    FirstKnownSnoc(ps, p, t);
    if t in b.local {
      RegisterKeepsBound(start, b, app, p, b.local[t], FirstKnown(ps, t).value);
    } else if DeclaresTitle(p, t) && t !in b.reg {
      RegisterBinds(start, b, app, ps, p);
    }
  }

  /**
   After a walk over ps the registry has only grown, and the local map binds
   exactly the declared titles that were not registered before, each to its first
   declaration of a known type.
   */
  lemma {:induction false} SetupRegisters(start: Build, app: int, ps: seq<Path>, t: string)
    requires NoTwins(start.w.t) && Resolved(start.w.t) && Indexed(start.reg, start.store) && start.local == map[]
    requires Scoped(ps)
    ensures WalkOk(RegisterAll(start, app, ps).w, app, ps)
    ensures RegistryGrew(start, RegisterAll(start, app, ps))
    ensures TitleOk(start, RegisterAll(start, app, ps), app, ps, t)
  {
    if ps != [] {
      var n := |ps| - 1;
      var b := RegisterAll(start, app, ps[..n]);
      SetupRegisters(start, app, ps[..n], t);
      VisitKeepsWalkOk(b.w, app, ps[..n], ps[n]);
      RegisterGrowsRegistry(start, b, app, ps[n]);
      RegisterKeepsTitleOk(start, b, app, ps[..n], ps[n], t);
      assert ps == ps[..n] + [ps[n]];
    }
  }
}
