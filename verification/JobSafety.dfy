/**
 What every run of the job protocol keeps.  `Inv` holds however the steps of
 Cancel and Delete calls are interleaved with the scheduler; `AtomicInv` needs
 those calls to run without interruption.
 */
module JobSafety {
  import opened Wrappers
  import FJ = ForkJoin
  import opened Jobs

  // ---------- The invariant of all interleavings ----------

  /** Row ids and creation times are below the counters that give out the next ones. */
  ghost predicate RowsOk(s: State) {
    forall id | id in s.rows :: id < s.nextId && s.rows[id].createdAt <= s.clock
  }

  /** What the scheduler believes about an application agrees with its row, as long as there is one. */
  ghost predicate AppOk(s: State, app: App) {
    app.id < s.nextId && (app.id in s.rows ==> s.rows[app.id].vus == app.vus)
  }

  ghost predicate JobOk(s: State) {
    && (s.pc.Picked? ==> AppOk(s, s.pc.app))
    && (InRun(s.pc) ==> s.job.Some? && s.job.value.app.Some? && AppOk(s, s.job.value.app.value))
  }

  /** The scheduler has written running and not yet the verdict. */
  predicate MayBeRunning(s: State) {
    && InRun(s.pc) && !s.pc.Assigned? && !s.pc.Compiling? && !s.pc.Compiled?
  }

  /** There is at most one running row, and while the process is up it is the current job's. */
  ghost predicate RunningOk(s: State) {
    && (forall id | id in s.rows && s.rows[id].status == Running ::
          s.pc.Down? || (MayBeRunning(s) && CurrentJob(s, id)))
    && (s.pc.Down? ==> forall id, other | id in s.rows && other in s.rows &&
          s.rows[id].status == Running && s.rows[other].status == Running :: id == other)
  }

  /** The executor is running this job's scenario, or has joined all of it. */
  ghost predicate ExecOk(s: State) {
    NeedsExec(s.pc) ==>
      && s.exec.Some? && FJ.WellPlaced(s.exec.value)
      && s.job.Some? && s.job.value.app.Some? && s.exec.value.nu == s.job.value.app.value.vus
      && s.exec.value.told == FJ.Told(s.exec.value.nu)
      && (!s.pc.Serving? ==> s.exec.value.main.Sent?)
  }

  /** The steps the executor still has to take. */
  ghost function ExecutorWork(s: State): nat
    requires ExecOk(s)
  {
    if s.pc.Serving? then
      FJ.WorkIsLeft(s.exec.value);
      FJ.Work(s.exec.value)
    else 0
  }

  predicate LegalTrace(ws: seq<Status>) {
    || ws == [Provisioning, Canceled] || ws == [Provisioning, Errored]
    || ws == [Provisioning, Running, Canceled] || ws == [Provisioning, Running, Errored]
    || ws == [Provisioning, Running, Finished]
  }

  /** What the current run has written is determined by where the scheduler is. */
  ghost predicate WritesOk(s: State) {
    match s.pc
    case Assigned => s.writes == []
    case Compiling => s.writes == [Provisioning]
    case Compiled => s.writes == [Provisioning]
    case MarkedRunning => s.writes == [Provisioning, Running]
    case Launching => s.writes == [Provisioning, Running]
    case Serving => s.writes == [Provisioning, Running]
    case Draining => s.writes == [Provisioning, Running]
    case Failed => s.writes == [Provisioning] || s.writes == [Provisioning, Running]
    case Final(v) => LegalTrace(s.writes + [v])
    case _ => true
  }

  /** The row of an application that was picked, while there is one: what the scheduler wrote last, or cancelled. */
  ghost predicate PickedRowOk(s: State) {
    && (s.pc.Picked? && s.pc.app.id in s.rows ==> s.rows[s.pc.app.id].status in {Pending, Canceled})
    && (s.pc.Assigned? && s.job.Some? && s.job.value.app.Some? && s.job.value.app.value.id in s.rows ==>
          s.rows[s.job.value.app.value.id].status in {Pending, Canceled})
    && (PastAssigned(s.pc) && s.job.Some? && s.job.value.app.Some? && s.job.value.app.value.id in s.rows ==>
          s.rows[s.job.value.app.value.id].status in {LastWrite(s), Canceled})
  }

  /** The scheduler has written provisioning and not yet the verdict. */
  predicate PastAssigned(pc: Pc) {
    InRun(pc) && !pc.Assigned?
  }

  function LastWrite(s: State): Status {
    if s.writes == [] then Pending else s.writes[|s.writes| - 1]
  }

  ghost predicate RunsOk(s: State) {
    forall ws | ws in s.runs :: LegalTrace(ws)
  }

  ghost predicate Sorted(ps: seq<int>) {
    forall i, j | 0 <= i < j < |ps| :: ps[i] <= ps[j]
  }

  /** Every pending row was created no earlier than any application picked so far. */
  ghost predicate PicksOk(s: State) {
    && Sorted(s.picks)
    && (forall p | p in s.picks :: p <= s.clock)
    && (forall p, id | p in s.picks && id in s.rows && s.rows[id].status == Pending ::
          p <= s.rows[id].createdAt)
  }

  ghost predicate Inv(s: State) {
    && RowsOk(s) && JobOk(s) && RunningOk(s) && ExecOk(s) && WritesOk(s) && PickedRowOk(s)
    && RunsOk(s) && PicksOk(s)
  }

  lemma VerdictIsTerminal(ws: seq<Status>, v: Status)
    requires LegalTrace(ws + [v])
    ensures Terminal(v)
    ensures ws == [Provisioning] || ws == [Provisioning, Running]
  {
    assert (ws + [v])[|ws|] == v;
    assert (ws + [v])[..|ws|] == ws;
  }

  lemma StepKeepsRowsOk(s: State, a: Action)
    requires RowsOk(s) && Enabled(s, a)
    ensures RowsOk(Apply(s, a))
  {
  }

  lemma StepKeepsJobOk(s: State, a: Action)
    requires RowsOk(s) && JobOk(s) && Enabled(s, a)
    ensures JobOk(Apply(s, a))
  {
  }

  lemma SchedulerKeepsRunningOk(s: State, a: Action)
    requires JobOk(s) && RunningOk(s) && WritesOk(s) && Enabled(s, a) && !ByClient(a)
    ensures RunningOk(Apply(s, a))
  {
    if a.WriteVerdict? {
      VerdictIsTerminal(s.writes, s.pc.verdict);
    }
  }

  lemma ClientKeepsRunningOk(s: State, a: Action)
    requires RunningOk(s) && Enabled(s, a) && ByClient(a)
    ensures RunningOk(Apply(s, a))
  {
  }

  lemma StepKeepsRunningOk(s: State, a: Action)
    requires JobOk(s) && RunningOk(s) && WritesOk(s) && Enabled(s, a)
    ensures RunningOk(Apply(s, a))
  {
    if ByClient(a) {
      ClientKeepsRunningOk(s, a);
    } else {
      SchedulerKeepsRunningOk(s, a);
    }
  }

  lemma ExecutorKeepsExecOk(s: State, step: FJ.Action)
    requires ExecOk(s) && Enabled(s, Executor(step))
    ensures ExecOk(Apply(s, Executor(step)))
  {
    FJ.StepDoesWork(s.exec.value, step);
  }

  predicate NeedsExec(pc: Pc) {
    pc.Serving? || pc.Draining? || pc == Final(Finished)
  }

  lemma OtherKeepsExec(s: State, a: Action)
    requires JobOk(s) && Enabled(s, a) && !a.Executor? && !a.Launch? && NeedsExec(Apply(s, a).pc)
    ensures var s' := Apply(s, a);
            && NeedsExec(s.pc) && s'.exec == s.exec
            && s'.job.Some? && s.job.Some? && s'.job.value.app == s.job.value.app
            && (!s'.pc.Serving? ==> !s.pc.Serving? || (s.exec.Some? && s.exec.value.main.Sent?))
  {
  }

  lemma StepKeepsExecOk(s: State, a: Action)
    requires JobOk(s) && ExecOk(s) && Enabled(s, a)
    ensures ExecOk(Apply(s, a))
  {
    match a
    case Executor(step) => ExecutorKeepsExecOk(s, step);
    case Launch(ok) => if ok { FJ.InitWellPlaced(s.job.value.app.value.vus, FJ.Told(s.job.value.app.value.vus)); }
    case _ => if NeedsExec(Apply(s, a).pc) { OtherKeepsExec(s, a); }
  }

  lemma StepKeepsWritesOk(s: State, a: Action)
    requires WritesOk(s) && Enabled(s, a)
    ensures WritesOk(Apply(s, a))
  {
  }

  lemma SchedulerKeepsPickedRowOk(s: State, a: Action)
    requires JobOk(s) && WritesOk(s) && PickedRowOk(s) && Enabled(s, a) && !ByClient(a)
    ensures PickedRowOk(Apply(s, a))
  {
  }

  lemma ClientKeepsPickedRowOk(s: State, a: Action)
    requires RowsOk(s) && JobOk(s) && PickedRowOk(s) && Enabled(s, a) && ByClient(a)
    ensures PickedRowOk(Apply(s, a))
  {
  }

  lemma StepKeepsRunsOk(s: State, a: Action)
    requires WritesOk(s) && RunsOk(s) && Enabled(s, a)
    ensures RunsOk(Apply(s, a))
  {
  }

  /** No step makes a row pending except the one that creates it. */
  lemma PendingIsOnlyCreated(s: State, a: Action)
    requires WritesOk(s) && Enabled(s, a)
    ensures forall id | id in Apply(s, a).rows && Apply(s, a).rows[id].status == Pending ::
              if a.Create? && id == s.nextId then Apply(s, a).rows[id].createdAt == a.at
              else id in s.rows && s.rows[id].status == Pending
                   && s.rows[id].createdAt == Apply(s, a).rows[id].createdAt
  {
    if a.WriteVerdict? {
      VerdictIsTerminal(s.writes, s.pc.verdict);
    }
  }

  lemma PickKeepsPicksOk(s: State, id: int)
    requires RowsOk(s) && PicksOk(s) && Enabled(s, Pick(id))
    ensures PicksOk(Apply(s, Pick(id)))
  {
    assert forall i | 0 <= i < |s.picks| :: s.picks[i] in s.picks;
    assert forall p | p in Apply(s, Pick(id)).picks :: p in s.picks || p == s.rows[id].createdAt;
  }

  lemma OtherPicksUnchanged(s: State, a: Action)
    requires Enabled(s, a) && !a.Pick?
    ensures Apply(s, a).picks == s.picks
    ensures s.clock <= Apply(s, a).clock && (a.Create? ==> Apply(s, a).clock == a.at)
  {
  }

  lemma StepKeepsPicksOk(s: State, a: Action)
    requires RowsOk(s) && WritesOk(s) && PicksOk(s) && Enabled(s, a)
    ensures PicksOk(Apply(s, a))
  {
    if a.Pick? {
      PickKeepsPicksOk(s, a.id);
    } else {
      PendingIsOnlyCreated(s, a);
      OtherPicksUnchanged(s, a);
    }
  }

  lemma StepKeepsInv(s: State, a: Action)
    requires Inv(s) && Enabled(s, a)
    ensures Inv(Apply(s, a))
  {
    StepKeepsRowsOk(s, a);
    StepKeepsJobOk(s, a);
    StepKeepsRunningOk(s, a);
    StepKeepsExecOk(s, a);
    StepKeepsWritesOk(s, a);
    if ByClient(a) {
      ClientKeepsPickedRowOk(s, a);
    } else {
      SchedulerKeepsPickedRowOk(s, a);
    }
    StepKeepsRunsOk(s, a);
    StepKeepsPicksOk(s, a);
  }

  lemma {:induction false} RunKeepsInv(acts: seq<Action>)
    requires Valid(Init(), acts)
    ensures Inv(After(Init(), acts))
  {
    if acts != [] {
      RunKeepsInv(acts[..|acts| - 1]);
      StepKeepsInv(After(Init(), acts[..|acts| - 1]), acts[|acts| - 1]);
    }
  }

  // ---------- When the scheduler and the table agree ----------

  /** From the provisioning write to the last one, the row of the current job holds what the scheduler wrote last. */
  ghost predicate Agrees(s: State) {
    PastAssigned(s.pc) ==>
      && s.job.Some? && s.job.value.app.Some? && s.writes != []
      && HasRow(s, s.job.value.app.value.id, LastWrite(s))
  }

  /** A Cancel or Delete call that looked before the job was provisioned writes while it is running. */
  predicate Interrupts(s: State, a: Action) {
    && PastAssigned(s.pc) && a.Resume? && a.client in s.clients
    && match s.clients[a.client]
       case Canceling(id) => CurrentJob(s, id)
       case Deleting(id) => CurrentJob(s, id)
       case _ => false
  }

  lemma SchedulerKeepsAgreement(s: State, a: Action)
    requires JobOk(s) && WritesOk(s) && Agrees(s) && Enabled(s, a) && !ByClient(a)
    ensures Agrees(Apply(s, a))
  {
  }

  lemma ClientKeepsAgreementIff(s: State, a: Action)
    requires RowsOk(s) && JobOk(s) && WritesOk(s) && Agrees(s) && Enabled(s, a) && ByClient(a)
    ensures Agrees(Apply(s, a)) <==> !Interrupts(s, a)
  {
    if s.pc.Final? {
      VerdictIsTerminal(s.writes, s.pc.verdict);
    }
  }

  /** A step from agreement leads to agreement if and only if it is not such a write. */
  lemma StepKeepsAgreementIff(s: State, a: Action)
    requires Inv(s) && Agrees(s) && Enabled(s, a)
    ensures Agrees(Apply(s, a)) <==> !Interrupts(s, a)
  {
    if ByClient(a) {
      ClientKeepsAgreementIff(s, a);
    } else {
      SchedulerKeepsAgreement(s, a);
    }
  }

  /** No step of the run is such a write. */
  predicate Uninterrupted(acts: seq<Action>)
    requires Valid(Init(), acts)
  {
    acts == [] ||
    (Uninterrupted(acts[..|acts| - 1]) && !Interrupts(After(Init(), acts[..|acts| - 1]), acts[|acts| - 1]))
  }

  ghost predicate AgreesThroughout(acts: seq<Action>)
    requires Valid(Init(), acts)
  {
    Agrees(After(Init(), acts)) && (acts == [] || AgreesThroughout(acts[..|acts| - 1]))
  }

  // ---------- The invariant of whole Cancel and Delete calls ----------

  ghost predicate AtomicInv(s: State) {
    s.clients == map[] && !JobLostItsApp(s) && Agrees(s)
  }

  lemma JobKeepsItsApp(s: State, a: Action)
    requires s.clients == map[] && !JobLostItsApp(s) && Agrees(s) && Enabled(s, a) && Atomic(a)
    ensures Apply(s, a).clients == map[] && !JobLostItsApp(Apply(s, a))
  {
  }

  lemma StepKeepsAtomicInv(s: State, a: Action)
    requires Inv(s) && AtomicInv(s) && Enabled(s, a) && Atomic(a)
    ensures AtomicInv(Apply(s, a))
  {
    JobKeepsItsApp(s, a);
    StepKeepsAgreementIff(s, a);
  }

  lemma {:induction false} RunKeepsAtomicInv(acts: seq<Action>)
    requires Valid(Init(), acts) && AllAtomic(acts)
    ensures AtomicInv(After(Init(), acts))
  {
    if acts != [] {
      RunKeepsAtomicInv(acts[..|acts| - 1]);
      RunKeepsInv(acts[..|acts| - 1]);
      StepKeepsAtomicInv(After(Init(), acts[..|acts| - 1]), acts[|acts| - 1]);
    }
  }
}
