/**
 The job protocol: the table of applications, the one scheduler thread of the
 master with the agent and the executor it drives, and the clients that create,
 cancel and delete applications while it runs.

 A state is what the master, its database and the current executor hold; an
 action is one atomic step.  Cancel and Delete come in two grains: `Cancel` and
 `Delete` are whole calls, `CancelCall`, `DeleteCall` and `Resume` are the same
 calls one database access or one look at the current job at a time.
 */
module Jobs {
  import opened Wrappers
  import FJ = ForkJoin

  datatype Status = Pending | Provisioning | Running | Finished | Canceled | Errored

  predicate Terminal(st: Status) {
    st == Finished || st == Canceled || st == Errored
  }

  /** A row of the applications table; `vus` is what the scenario's export() returns. */
  datatype Row = Row(status: Status, createdAt: int, startedAt: Option<int>, vus: seq<int>)

  /** What a job keeps of the row it was picked from. */
  datatype App = App(id: int, vus: seq<int>)

  /** The job struct; `app` is None after a failed Save has overwritten it with nil. */
  datatype Job = Job(app: Option<App>, cancelled: bool)

  /** Where the scheduler thread is. */
  datatype Pc =
    | Down                  // the process is not running
    | Asleep                // at the head of the scheduling loop
    | Picked(app: App)      // nextApplication has returned
    | Assigned              // m.job is set, run has started
    | Compiling             // provisioning is written
    | Compiled
    | MarkedRunning         // running is written
    | Launching             // in RunJob, before the Start call
    | Serving               // the executor is in its run method
    | Draining              // Start has returned nil, the process is being waited for
    | Failed                // run is returning an error
    | Final(verdict: Status)  // the deferred block is about to write the verdict

  /** A Cancel or Delete call between two of its steps. */
  datatype Client = Signalling | Looking(id: int) | Canceling(id: int) | Deleting(id: int)

  datatype State = State(
    rows: map<int, Row>,
    nextId: int,
    clock: int,
    job: Option<Job>,
    pc: Pc,
    exec: Option<FJ.State>,
    clients: map<nat, Client>,
    // history
    writes: seq<Status>,    // the statuses the current run has written
    runs: seq<seq<Status>>, // the writes of every run that reached its last write
    picks: seq<int>)        // created_at of every application picked so far

  datatype Action =
    // clients
    | Create(vus: seq<int>, at: int)
    | Cancel(id: int)
    | Delete(id: int)
    | CancelCall(client: nat, id: int)
    | DeleteCall(client: nat, id: int)
    | Resume(client: nat)
    // scheduler
    | Oversleep
    | Pick(id: int)
    | LogsFail
    | Assign
    | WriteProvisioning
    | Compile(ok: bool)
    | WriteRunning
    | WriteStartedAt(at: int)
    | Launch(ok: bool)
    | Executor(step: FJ.Action)
    | StartReturns(ok: bool)
    | Exit(ok: bool)
    | Decide
    | WriteVerdict
    // the process
    | Crash
    | Boot

  function Init(): State {
    State(map[], 1, 0, None, Down, None, map[], [], [], [])
  }

  // ---------- Reading the state ----------

  predicate HasRow(s: State, id: int, st: Status) {
    id in s.rows && s.rows[id].status == st
  }

  /** m.job.app.ID is appID. */
  predicate CurrentJob(s: State, id: int) {
    s.job.Some? && s.job.value.app.Some? && s.job.value.app.value.id == id
  }

  /** m.job.app is nil, so that reading its ID panics. */
  predicate JobLostItsApp(s: State) {
    s.job.Some? && s.job.value.app.None?
  }

  predicate JobCancelled(s: State) {
    s.job.Some? && s.job.value.cancelled
  }

  /** Between the assignment of m.job and the last write of run. */
  predicate InRun(pc: Pc) {
    !pc.Down? && !pc.Asleep? && !pc.Picked?
  }

  predicate Deletable(st: Status) {
    st == Pending || Terminal(st)
  }

  /** created_at of id is minimal among the pending rows. */
  predicate OldestPending(s: State, id: int) {
    && HasRow(s, id, Pending)
    && forall other | other in s.rows && s.rows[other].status == Pending ::
         s.rows[id].createdAt <= s.rows[other].createdAt
  }

  /** A Save through the job's own context succeeds: the context is live and the row exists. */
  predicate JobCanSave(s: State) {
    && s.job.Some? && s.job.value.app.Some? && !s.job.value.cancelled
    && s.job.value.app.value.id in s.rows
  }

  // ---------- The steps ----------

  function PutStatus(rows: map<int, Row>, id: int, st: Status): map<int, Row>
    requires id in rows
  {
    rows[id := rows[id].(status := st)]
  }

  function CancelJob(s: State): State {
    if s.job.Some? then s.(job := Some(s.job.value.(cancelled := true))) else s
  }

  /** CancelApplication from start to end. */
  function CancelEffect(s: State, id: int): State {
    if JobLostItsApp(s) then s
    else if CurrentJob(s, id) then CancelJob(s)
    else if id in s.rows && !Terminal(s.rows[id].status) then
      s.(rows := PutStatus(s.rows, id, Canceled))
    else s
  }

  /** DeleteApplication from start to end. */
  function DeleteEffect(s: State, id: int): State {
    if id in s.rows && Deletable(s.rows[id].status) then s.(rows := s.rows - {id}) else s
  }

  /** The first step of a Cancel call: the comparison in `cancel`. */
  function CancelStarts(s: State, c: nat, id: int): State {
    if JobLostItsApp(s) then s
    else s.(clients := s.clients[c := if CurrentJob(s, id) then Signalling else Looking(id)])
  }

  /** The first step of a Delete call: the query and the check. */
  function DeleteStarts(s: State, c: nat, id: int): State {
    if id in s.rows && Deletable(s.rows[id].status) then s.(clients := s.clients[c := Deleting(id)])
    else s
  }

  function ClientResumes(s: State, c: nat): State
    requires c in s.clients
  {
    var s' := s.(clients := s.clients - {c});
    match s.clients[c]
    case Signalling => CancelJob(s')
    case Looking(id) =>
      if id in s.rows && !Terminal(s.rows[id].status) then s.(clients := s.clients[c := Canceling(id)])
      else s'
    case Canceling(id) =>
      if id in s.rows then s'.(rows := PutStatus(s.rows, id, Canceled)) else s'
    case Deleting(id) => s'.(rows := s.rows - {id})
  }

  function Crashed(s: State): State {
    s.(job := None, pc := Down, exec := None, clients := map[], writes := [])
  }

  /** A setStatus of run: a failed Save leaves m.job.app nil and the deferred block panics on it. */
  function RunWrites(s: State, st: Status, next: Pc): State {
    if JobCanSave(s) then
      s.(rows := PutStatus(s.rows, s.job.value.app.value.id, st), pc := next, writes := s.writes + [st])
    else Crashed(s)
  }

  /** The last setStatus: its context is never cancelled and its error is dropped. */
  function VerdictWrites(s: State): State
    requires s.pc.Final? && s.job.Some? && s.job.value.app.Some?
  {
    var id := s.job.value.app.value.id;
    var ws := s.writes + [s.pc.verdict];
    if id in s.rows then
      s.(rows := PutStatus(s.rows, id, s.pc.verdict), pc := Asleep, writes := ws, runs := s.runs + [ws])
    else
      s.(job := Some(s.job.value.(app := None)), pc := Asleep)
  }

  function Cleaned(rows: map<int, Row>): map<int, Row> {
    map id | id in rows ::
      if rows[id].status == Running then rows[id].(status := Canceled) else rows[id]
  }

  predicate Enabled(s: State, a: Action) {
    match a
    case Create(_, at) => !s.pc.Down? && s.clock <= at
    case Cancel(_) => !s.pc.Down?
    case Delete(_) => !s.pc.Down?
    case CancelCall(c, _) => !s.pc.Down? && c !in s.clients
    case DeleteCall(c, _) => !s.pc.Down? && c !in s.clients
    case Resume(c) => c in s.clients
    case Oversleep => s.pc.Asleep?
    case Pick(id) => s.pc.Asleep? && OldestPending(s, id)
    case LogsFail => s.pc.Picked?
    case Assign => s.pc.Picked?
    case WriteProvisioning => s.pc.Assigned?
    case Compile(_) => s.pc.Compiling?
    case WriteRunning => s.pc.Compiled?
    case WriteStartedAt(_) => s.pc.MarkedRunning?
    case Launch(ok) => s.pc.Launching? && (ok ==> s.job.Some? && s.job.value.app.Some? && !JobCancelled(s))
    case Executor(step) => s.pc.Serving? && s.exec.Some? && FJ.Enabled(s.exec.value, step)
    case StartReturns(ok) => s.pc.Serving? && (ok ==> s.exec.Some? && s.exec.value.main.Sent?)
    case Exit(_) => s.pc.Draining?
    case Decide => s.pc.Failed?
    case WriteVerdict => s.pc.Final? && s.job.Some? && s.job.value.app.Some?
    case Crash => !s.pc.Down?
    case Boot => s.pc.Down?
  }

  function Apply(s: State, a: Action): State
    requires Enabled(s, a)
  {
    match a
    case Create(vus, at) =>
      s.(rows := s.rows[s.nextId := Row(Pending, at, None, vus)], nextId := s.nextId + 1, clock := at)
    case Cancel(id) => CancelEffect(s, id)
    case Delete(id) => DeleteEffect(s, id)
    case CancelCall(c, id) => CancelStarts(s, c, id)
    case DeleteCall(c, id) => DeleteStarts(s, c, id)
    case Resume(c) => ClientResumes(s, c)
    case Oversleep => s
    case Pick(id) =>
      s.(pc := Picked(App(id, s.rows[id].vus)), picks := s.picks + [s.rows[id].createdAt])
    case LogsFail => s.(pc := Asleep)
    case Assign => s.(pc := Assigned, job := Some(Job(Some(s.pc.app), false)), exec := None, writes := [])
    case WriteProvisioning => RunWrites(s, Provisioning, Compiling)
    case Compile(ok) => s.(pc := if ok then Compiled else Failed)
    case WriteRunning => RunWrites(s, Running, MarkedRunning)
    case WriteStartedAt(at) =>
      if JobCanSave(s) then
        var id := s.job.value.app.value.id;
        s.(rows := s.rows[id := s.rows[id].(startedAt := Some(at))], pc := Launching)
      else s.(pc := Failed)
    case Launch(ok) =>
      if ok then s.(pc := Serving, exec := Some(FJ.Begin(s.job.value.app.value.vus)))
      else s.(pc := Failed)
    case Executor(step) => s.(exec := Some(FJ.Apply(s.exec.value, step)))
    case StartReturns(ok) => s.(pc := if ok then Draining else Failed)
    case Exit(ok) => s.(pc := if ok then Final(Finished) else Failed)
    case Decide => s.(pc := Final(if JobCancelled(s) then Canceled else Errored))
    case WriteVerdict => VerdictWrites(s)
    case Crash => Crashed(s)
    case Boot => s.(pc := Asleep, rows := Cleaned(s.rows))
  }

  /** Cancel and Delete calls that run without anything in between. */
  predicate Atomic(a: Action) {
    !a.CancelCall? && !a.DeleteCall? && !a.Resume?
  }

  /** Steps of the callers of the master, as opposed to its scheduler thread and the process itself. */
  predicate ByClient(a: Action) {
    a.Create? || a.Cancel? || a.Delete? || a.CancelCall? || a.DeleteCall? || a.Resume?
  }

  /** How far a round of the scheduling loop is from its end; the provisioning write starts its second half. */
  function Rank(pc: Pc): nat {
    match pc
    case Down => 0
    case Assigned => 1
    case Picked(_) => 2
    case Asleep => 3
    case Final(_) => 4
    case Failed => 5
    case Draining => 6
    case Serving => 7
    case Launching => 8
    case MarkedRunning => 9
    case Compiled => 10
    case Compiling => 11
  }

  // ---------- Runs ----------

  predicate Valid(s: State, acts: seq<Action>)
    decreases |acts|, 0
  {
    acts == [] ||
    (Valid(s, acts[..|acts| - 1]) && Enabled(After(s, acts[..|acts| - 1]), acts[|acts| - 1]))
  }

  function After(s: State, acts: seq<Action>): State
    requires Valid(s, acts)
    decreases |acts|, 1
  {
    if acts == [] then s else Apply(After(s, acts[..|acts| - 1]), acts[|acts| - 1])
  }

  predicate AllAtomic(acts: seq<Action>) {
    forall a | a in acts :: Atomic(a)
  }

  lemma Extend(s: State, acts: seq<Action>, a: Action)
    requires Valid(s, acts) && Enabled(After(s, acts), a)
    ensures Valid(s, acts + [a]) && After(s, acts + [a]) == Apply(After(s, acts), a)
  {
    assert (acts + [a])[..|acts|] == acts;
  }

  lemma {:induction false} Prepend(s: State, a: Action, acts: seq<Action>)
    requires Enabled(s, a) && Valid(Apply(s, a), acts)
    ensures Valid(s, [a] + acts) && After(s, [a] + acts) == After(Apply(s, a), acts)
  {
    if acts == [] {
      Extend(s, [], a);
      assert [a] + acts == [] + [a];
    } else {
      var n := |acts| - 1;
      Prepend(s, a, acts[..n]);
      Extend(s, [a] + acts[..n], acts[n]);
      assert [a] + acts == ([a] + acts[..n]) + [acts[n]];
    }
  }
}
