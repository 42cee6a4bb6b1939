/**
 The properties of the job protocol, stated over whole runs from the empty
 database.  A run is a sequence of actions `acts` with `Valid(Init(), acts)`.
 */
module JobTheorems {
  import opened Wrappers
  import FJ = ForkJoin
  import opened Jobs
  import opened JobSafety
  import opened JobFrames

  // ---------- End-to-end completion ----------

  /** Only the last write of a run makes a row finished, and only after the executor has joined. */
  lemma FinishedOnlyByVerdict(s: State, a: Action, id: int)
    requires Inv(s) && Enabled(s, a)
    requires HasRow(Apply(s, a), id, Finished) && !HasRow(s, id, Finished)
    ensures a.WriteVerdict? && s.pc == Final(Finished) && CurrentJob(s, id)
  {
  }

  /** The condition on a scenario: wg.Add is not told of fewer users than there are, or panics. */
  predicate Safe(vus: seq<int>) {
    FJ.JoinSafe(vus, FJ.Told(vus))
  }

  /**
   In every run, the step that makes a row finished comes after every virtual
   user of that row's scenario has returned, provided the scenario is safe.
   */
  lemma FinishedMeansJoined(acts: seq<Action>, a: Action, id: int)
    requires MakesFinished(acts, a, id)
    ensures var s, s' := After(Init(), acts), Apply(After(Init(), acts), a);
            && CurrentJob(s, id) && s.exec.Some? && s.exec.value.main.Sent?
            && s.exec.value.nu == s'.rows[id].vus
            && (Safe(s'.rows[id].vus) ==> s.exec.value.finished == FJ.Users(s'.rows[id].vus))
  {
    var s := After(Init(), acts);
    RunKeepsInv(acts);
    FinishedOnlyByVerdict(s, a, id);
    if Safe(s.exec.value.nu) {
      FJ.SafeJoin(s.exec.value);
    }
  }

  /** After `acts`, step `a` makes row `id` finished. */
  predicate MakesFinished(acts: seq<Action>, a: Action, id: int) {
    && Valid(Init(), acts) && Enabled(After(Init(), acts), a)
    && HasRow(Apply(After(Init(), acts), a), id, Finished) && !HasRow(After(Init(), acts), id, Finished)
  }

  /** In every run, a row with this scenario becomes finished only once all its users have returned. */
  ghost predicate FinishedCanBeTrusted(vus: seq<int>) {
    forall acts, a, id | MakesFinished(acts, a, id) && Apply(After(Init(), acts), a).rows[id].vus == vus ::
      After(Init(), acts).exec.Some? && After(Init(), acts).exec.value.finished == FJ.Users(vus)
  }

  /** Some run makes a row with this scenario finished. */
  ghost predicate CanFinish(vus: seq<int>) {
    exists acts, a, id :: MakesFinished(acts, a, id) && Apply(After(Init(), acts), a).rows[id].vus == vus
  }

  /** A run of the executor's goroutines is a run of the protocol around them. */
  lemma {:induction false} EmbedExecutor(acts: seq<Action>, threads: seq<FJ.Action>) returns (more: seq<Action>)
    requires Valid(Init(), acts)
    requires var s := After(Init(), acts); s.pc.Serving? && s.exec.Some? && FJ.Valid(s.exec.value, threads)
    ensures Valid(Init(), more) && (AllAtomic(acts) ==> AllAtomic(more))
    ensures var s := After(Init(), acts);
            After(Init(), more) == s.(exec := Some(FJ.After(s.exec.value, threads)))
  {
    if threads == [] {
      more := acts;
    } else {
      var n := |threads| - 1;
      more := EmbedExecutor(acts, threads[..n]);
      Extend(Init(), more, Executor(threads[n]));
      more := more + [Executor(threads[n])];
    }
  }

  // ---------- The stages of an undisturbed run, from state s to state s' ----------

  predicate Unmoved(s: State, s': State) {
    s'.clients == s.clients && s'.nextId == s.nextId
  }

  predicate HasStatusNow(s: State, s': State, id: int, st: Status) {
    id in s.rows && s'.rows == PutStatus(s.rows, id, st)
  }

  /** The same, and started_at has been written. */
  predicate StampedNow(s: State, s': State, id: int, st: Status) {
    id in s.rows && s'.rows == s.rows[id := Row(st, s.rows[id].createdAt, Some(0), s.rows[id].vus)]
  }

  predicate PickedWith(s: State, app: App) {
    s.pc == Picked(app) && app.id in s.rows && s.rows[app.id].vus == app.vus
  }

  /** Only the first application is there, and it was picked. */
  predicate FirstPicked(s: State, vus: seq<int>) {
    && PickedWith(s, App(1, vus)) && s.rows == map[1 := Row(Pending, 0, None, vus)]
    && s.clients == map[] && s.job.None? && s.nextId == 2
  }

  predicate IsTakenUp(s: State, s': State, app: App) {
    && s'.pc.Compiling? && s'.job == Some(Job(Some(app), false)) && s'.writes == [Provisioning]
    && Unmoved(s, s') && HasStatusNow(s, s', app.id, Provisioning)
  }

  predicate IsMarkedRunning(s: State, s': State, app: App) {
    && s'.pc.MarkedRunning? && s'.job == Some(Job(Some(app), false))
    && Unmoved(s, s') && HasStatusNow(s, s', app.id, Running)
  }

  predicate IsServed(s: State, s': State, app: App) {
    && s'.pc.Serving? && s'.job == Some(Job(Some(app), false)) && s'.exec == Some(FJ.Begin(app.vus))
    && Unmoved(s, s') && StampedNow(s, s', app.id, Running)
  }

  predicate HasJoined(s: State) {
    s.pc.Serving? && s.exec.Some? && s.exec.value.main.Sent?
  }

  predicate IsCompleted(s: State, s': State, app: App, exec: FJ.State) {
    && s'.pc == Final(Finished) && s'.job == Some(Job(Some(app), false)) && s'.exec == Some(exec)
    && Unmoved(s, s') && StampedNow(s, s', app.id, Running)
  }

  predicate IsOver(s: State, s': State, app: App) {
    && s'.pc.Asleep? && CurrentJob(s', app.id)
    && Unmoved(s, s') && StampedNow(s, s', app.id, Finished)
  }

  /** Boot, and one application that is picked at once. */
  lemma PickedFirst(vus: seq<int>) returns (acts: seq<Action>)
    ensures Valid(Init(), acts) && AllAtomic(acts)
    ensures FirstPicked(After(Init(), acts), vus)
  {
    acts := [];
    Extend(Init(), acts, Boot);
    acts := acts + [Boot];
    Extend(Init(), acts, Create(vus, 0));
    acts := acts + [Create(vus, 0)];
    Extend(Init(), acts, Pick(1));
    acts := acts + [Pick(1)];
  }

  /** From the pick to the running write. */
  lemma Provisioned(acts: seq<Action>, app: App) returns (more: seq<Action>)
    requires Valid(Init(), acts) && After(Init(), acts).pc == Picked(app) && app.id in After(Init(), acts).rows
    ensures Valid(Init(), more) && (AllAtomic(acts) ==> AllAtomic(more))
    ensures IsMarkedRunning(After(Init(), acts), After(Init(), more), app)
  {
    more := TakenUp(acts, app);
    Extend(Init(), more, Compile(true));
    more := more + [Compile(true)];
    Extend(Init(), more, WriteRunning);
    more := more + [WriteRunning];
  }

  lemma TakenUp(acts: seq<Action>, app: App) returns (more: seq<Action>)
    requires Valid(Init(), acts) && After(Init(), acts).pc == Picked(app) && app.id in After(Init(), acts).rows
    ensures Valid(Init(), more) && (AllAtomic(acts) ==> AllAtomic(more))
    ensures IsTakenUp(After(Init(), acts), After(Init(), more), app)
  {
    Extend(Init(), acts, Assign);
    more := acts + [Assign];
    Extend(Init(), more, WriteProvisioning);
    more := more + [WriteProvisioning];
  }

  /** From there to the executor's run method. */
  lemma Served(past: seq<Action>, acts: seq<Action>, app: App) returns (more: seq<Action>)
    requires Valid(Init(), past) && Valid(Init(), acts)
    requires IsMarkedRunning(After(Init(), past), After(Init(), acts), app)
    ensures Valid(Init(), more) && (AllAtomic(acts) ==> AllAtomic(more))
    ensures IsServed(After(Init(), past), After(Init(), more), app)
  {
    Extend(Init(), acts, WriteStartedAt(0));
    more := acts + [WriteStartedAt(0)];
    Extend(Init(), more, Launch(true));
    more := more + [Launch(true)];
  }

  lemma Exited(acts: seq<Action>) returns (more: seq<Action>)
    requires Valid(Init(), acts)
    requires HasJoined(After(Init(), acts))
    ensures Valid(Init(), more) && After(Init(), more) == After(Init(), acts).(pc := Final(Finished))
    ensures AllAtomic(acts) ==> AllAtomic(more)
  {
    Extend(Init(), acts, StartReturns(true));
    Extend(Init(), acts + [StartReturns(true)], Exit(true));
    more := acts + [StartReturns(true)] + [Exit(true)];
  }

  /** A picked application whose executor can send nil is run by it, with these goroutine steps, up to the verdict. */
  lemma Completed(acts: seq<Action>, app: App, threads: seq<FJ.Action>) returns (more: seq<Action>)
    requires Valid(Init(), acts) && PickedWith(After(Init(), acts), app)
    requires FJ.Joins(app.vus, FJ.Told(app.vus), threads)
    ensures MakesFinished(more, WriteVerdict, app.id) && (AllAtomic(acts) ==> AllAtomic(more))
    ensures IsCompleted(After(Init(), acts), After(Init(), more), app, FJ.After(FJ.Begin(app.vus), threads))
    ensures Apply(After(Init(), more), WriteVerdict).rows[app.id].vus == app.vus
  {
    more := Provisioned(acts, app);
    more := Served(acts, more, app);
    more := EmbedExecutor(more, threads);
    more := Exited(more);
    VerdictFinishes(more, app.id);
  }

  lemma VerdictFinishes(acts: seq<Action>, id: int)
    requires Valid(Init(), acts)
    requires var s := After(Init(), acts); s.pc == Final(Finished) && CurrentJob(s, id) && HasRow(s, id, Running)
    ensures MakesFinished(acts, WriteVerdict, id)
    ensures Apply(After(Init(), acts), WriteVerdict).rows[id].vus == After(Init(), acts).rows[id].vus
  {
  }

  /** The first application of all is run with these goroutine steps, up to the verdict. */
  lemma FinishFirst(vus: seq<int>, threads: seq<FJ.Action>) returns (acts: seq<Action>)
    requires FJ.Joins(vus, FJ.Told(vus), threads)
    ensures MakesFinished(acts, WriteVerdict, 1) && Apply(After(Init(), acts), WriteVerdict).rows[1].vus == vus
    ensures After(Init(), acts).exec == Some(FJ.After(FJ.Begin(vus), threads))
  {
    var picked := PickedFirst(vus);
    acts := Completed(picked, App(1, vus), threads);
  }

  /** An unsafe scenario can be reported finished with users still to come. */
  lemma PrematurelyFinished(vus: seq<int>) returns (acts: seq<Action>)
    requires !Safe(vus)
    ensures MakesFinished(acts, WriteVerdict, 1)
    ensures Apply(After(Init(), acts), WriteVerdict).rows[1].vus == vus
    ensures After(Init(), acts).exec.Some? && After(Init(), acts).exec.value.finished != FJ.Users(vus)
  {
    var threads := FJ.PrematureJoin(vus, FJ.Told(vus));
    acts := FinishFirst(vus, threads);
  }

  /**
   The status finished can be trusted, in every run of the whole protocol, if and
   only if the WaitGroup is not told of fewer users than the scenario has, or
   panics on what it is told.
   */
  lemma FinishedCanBeTrustedIff(vus: seq<int>)
    ensures FinishedCanBeTrusted(vus) <==> Safe(vus)
  {
    if Safe(vus) {
      forall acts, a, id | MakesFinished(acts, a, id) && Apply(After(Init(), acts), a).rows[id].vus == vus
        ensures After(Init(), acts).exec.Some? && After(Init(), acts).exec.value.finished == FJ.Users(vus)
      {
        FinishedMeansJoined(acts, a, id);
      }
    } else {
      var acts := PrematurelyFinished(vus);
    }
  }

  /** A scenario can be finished at all if and only if its WaitGroup can be brought to zero. */
  lemma CanFinishIff(vus: seq<int>)
    ensures CanFinish(vus) <==> 0 <= FJ.Told(vus) <= FJ.PositiveTotal(vus)
  {
    FJ.JoinCanHappenIff(vus, FJ.Told(vus));
    if 0 <= FJ.Told(vus) <= FJ.PositiveTotal(vus) {
      var threads :| FJ.Joins(vus, FJ.Told(vus), threads);
      var acts := FinishFirst(vus, threads);
    } else {
      forall acts, a, id | MakesFinished(acts, a, id) ensures Apply(After(Init(), acts), a).rows[id].vus != vus {
        FinishedWasTold(acts, a, id);
      }
    }
  }

  lemma FinishedWasTold(acts: seq<Action>, a: Action, id: int)
    requires MakesFinished(acts, a, id)
    ensures var vus := Apply(After(Init(), acts), a).rows[id].vus; 0 <= FJ.Told(vus) <= FJ.PositiveTotal(vus)
  {
    var s := After(Init(), acts);
    FinishedMeansJoined(acts, a, id);
    RunKeepsInv(acts);
    FinishedOnlyByVerdict(s, a, id);
    FJ.SentWasTold(s.exec.value);
  }

  // ---------- The scheduler and the table ----------

  /**
   However Cancel and Delete calls are interleaved, at most one row is running,
   and while the process is up it is the current job's.
   */
  lemma AtMostOneRunning(acts: seq<Action>, id: int, other: int)
    requires Valid(Init(), acts)
    requires HasRow(After(Init(), acts), id, Running)
    ensures HasRow(After(Init(), acts), other, Running) ==> id == other
    ensures !After(Init(), acts).pc.Down? ==> CurrentJob(After(Init(), acts), id)
  {
    RunKeepsInv(acts);
  }

  /**
   At every point of a run, from the provisioning write to the last one, the job's
   row exists and holds what the scheduler wrote last, if and only if no Cancel or
   Delete call that had looked earlier writes to that row meanwhile.
   */
  lemma {:induction false} AgreesThroughoutIff(acts: seq<Action>)
    requires Valid(Init(), acts)
    ensures AgreesThroughout(acts) <==> Uninterrupted(acts)
  {
    if acts != [] {
      var n := |acts| - 1;
      AgreesThroughoutIff(acts[..n]);
      if Agrees(After(Init(), acts[..n])) {
        RunKeepsInv(acts[..n]);
        StepKeepsAgreementIff(After(Init(), acts[..n]), acts[n]);
      }
    }
  }

  /** The job loses its app in one way only: by the last write of a run whose row is gone. */
  lemma StepLosesAppIff(s: State, a: Action)
    requires Inv(s) && !JobLostItsApp(s) && Enabled(s, a)
    ensures JobLostItsApp(Apply(s, a)) <==>
              a.WriteVerdict? && s.job.Some? && s.job.value.app.Some? && s.job.value.app.value.id !in s.rows
  {
  }

  /** Without such a late write it never does, so that no caller of Cancel panics. */
  lemma {:induction false} UninterruptedKeepsApp(acts: seq<Action>)
    requires Valid(Init(), acts) && Uninterrupted(acts)
    ensures !JobLostItsApp(After(Init(), acts))
  {
    if acts != [] {
      var n := |acts| - 1;
      UninterruptedKeepsApp(acts[..n]);
      AgreesThroughoutIff(acts[..n]);
      RunKeepsInv(acts[..n]);
      StepLosesAppIff(After(Init(), acts[..n]), acts[n]);
    }
  }

  /** Whole Cancel and Delete calls never do that. */
  lemma SchedulerAgreesWithTable(acts: seq<Action>)
    requires Valid(Init(), acts) && AllAtomic(acts)
    ensures Agrees(After(Init(), acts))
  {
    RunKeepsAtomicInv(acts);
  }

  /** A run writes provisioning, then perhaps running, then one terminal status; finished only after running. */
  lemma RunsAreLegal(acts: seq<Action>, k: nat)
    requires Valid(Init(), acts) && k < |After(Init(), acts).runs|
    ensures LegalTrace(After(Init(), acts).runs[k])
  {
    RunKeepsInv(acts);
  }

  /** Applications are picked in the order they were created in, over cancels, deletes, retries and crashes. */
  lemma PicksAreFifo(acts: seq<Action>, i: nat, j: nat)
    requires Valid(Init(), acts) && i < j < |After(Init(), acts).picks|
    ensures After(Init(), acts).picks[i] <= After(Init(), acts).picks[j]
  {
    RunKeepsInv(acts);
  }

  lemma {:induction false} PicksOnlyGrow(acts: seq<Action>, k: nat)
    requires Valid(Init(), acts) && k <= |acts|
    ensures Valid(Init(), acts[..k]) && After(Init(), acts[..k]).picks <= After(Init(), acts).picks
    ensures k < |acts| ==> Enabled(After(Init(), acts[..k]), acts[k])
    ensures k < |acts| ==> Apply(After(Init(), acts[..k]), acts[k]).picks <= After(Init(), acts).picks
  {
    if k == |acts| {
      assert acts[..k] == acts;
    } else {
      var n := |acts| - 1;
      PicksOnlyGrow(acts[..n], k);
      PicksAreRecorded(After(Init(), acts[..n]), acts[n]);
      assert acts[..n][..k] == acts[..k];
    }
  }

  /** In terms of the steps: of two picks of a run, the later one is of an application created no earlier. */
  lemma LaterPickIsYounger(acts: seq<Action>, i: nat, j: nat)
    requires Valid(Init(), acts) && i < j < |acts| && acts[i].Pick? && acts[j].Pick?
    ensures Valid(Init(), acts[..i]) && Enabled(After(Init(), acts[..i]), acts[i])
    ensures Valid(Init(), acts[..j]) && Enabled(After(Init(), acts[..j]), acts[j])
    ensures After(Init(), acts[..i]).rows[acts[i].id].createdAt <= After(Init(), acts[..j]).rows[acts[j].id].createdAt
  {
    PicksOnlyGrow(acts, i);
    PicksOnlyGrow(acts, j);
    assert acts[..j][..i] == acts[..i] && acts[..j][i] == acts[i];
    PicksOnlyGrow(acts[..j], i);
    var s, t := After(Init(), acts[..i]), After(Init(), acts[..j]);
    PicksAreRecorded(s, acts[i]);
    assert t.picks[|s.picks|] == s.rows[acts[i].id].createdAt;
    RunKeepsInv(acts[..j]);
    assert s.rows[acts[i].id].createdAt in t.picks;
  }

  // ---------- Terminal statuses ----------

  /** The scheduler has read the row as pending and its provisioning write is still going to succeed. */
  predicate PickedNotWritten(s: State, id: int) {
    || (s.pc.Picked? && s.pc.app.id == id)
    || (s.pc.Assigned? && CurrentJob(s, id) && !JobCancelled(s))
  }

  /** A Cancel call has looked at the row and is about to write. */
  predicate CancelInFlight(s: State, id: int) {
    exists c | c in s.clients :: s.clients[c] == Canceling(id)
  }

  /** The row of the current job, cancelled behind its back, can get another status from the run. */
  predicate RunMayOverwrite(s: State, id: int) {
    && PastAssigned(s.pc) && CurrentJob(s, id)
    && match s.pc
       case Final(verdict) => verdict != Canceled
       case Draining => true
       case Serving => !JobCancelled(s) || (s.exec.Some? && FJ.CanStillJoin(s.exec.value))
       case _ => !JobCancelled(s)
  }

  predicate Endangered(s: State, id: int) {
    && id in s.rows
    && (PickedNotWritten(s, id)
        || (s.rows[id].status != Canceled && CancelInFlight(s, id))
        || RunMayOverwrite(s, id))
  }

  predicate Settled(s: State, id: int, st: Status) {
    id < s.nextId && (id in s.rows ==> s.rows[id].status == st && !Endangered(s, id))
  }

  /** Behind the back of a run a row can only be cancelled. */
  lemma TerminalInRun(s: State, id: int)
    requires WritesOk(s) && PickedRowOk(s) && PastAssigned(s.pc) && CurrentJob(s, id)
    requires id in s.rows && Terminal(s.rows[id].status)
    ensures s.rows[id].status == Canceled
  {
    if s.pc.Final? {
      VerdictIsTerminal(s.writes, s.pc.verdict);
    }
  }

  lemma SchedulerKeepsSettled(s: State, a: Action, id: int, st: Status)
    requires Inv(s) && Enabled(s, a) && !ByClient(a) && Terminal(st) && Settled(s, id, st)
    ensures Settled(Apply(s, a), id, st)
  {
    if id in s.rows && PastAssigned(s.pc) && CurrentJob(s, id) {
      TerminalInRun(s, id);
      RunKeepsRowSettled(s, a, id);
    } else {
      OthersKeepRowSettled(s, a, id, st);
    }
  }

  lemma RunKeepsRowSettled(s: State, a: Action, id: int)
    requires JobOk(s) && ExecOk(s) && Enabled(s, a) && !ByClient(a)
    requires PastAssigned(s.pc) && CurrentJob(s, id) && HasRow(s, id, Canceled) && Settled(s, id, Canceled)
    ensures Settled(Apply(s, a), id, Canceled)
  {
    if a.Executor? {
      FJ.LostJoinStaysLost(s.exec.value, a.step);
    }
  }

  lemma OthersKeepRowSettled(s: State, a: Action, id: int, st: Status)
    requires RowsOk(s) && JobOk(s) && Enabled(s, a) && !ByClient(a) && Terminal(st) && Settled(s, id, st)
    requires !(id in s.rows && PastAssigned(s.pc) && CurrentJob(s, id))
    ensures Settled(Apply(s, a), id, st)
  {
  }

  lemma ClientKeepsSettled(s: State, a: Action, id: int, st: Status)
    requires RowsOk(s) && Enabled(s, a) && ByClient(a) && Terminal(st) && Settled(s, id, st)
    ensures Settled(Apply(s, a), id, st)
  {
  }

  lemma {:induction false} RunKeepsSettled(s: State, acts: seq<Action>, id: int, st: Status)
    requires Inv(s) && Valid(s, acts) && Terminal(st) && Settled(s, id, st)
    ensures Inv(After(s, acts)) && Settled(After(s, acts), id, st)
  {
    if acts != [] {
      var n := |acts| - 1;
      RunKeepsSettled(s, acts[..n], id, st);
      StepKeepsInv(After(s, acts[..n]), acts[n]);
      if ByClient(acts[n]) {
        ClientKeepsSettled(After(s, acts[..n]), acts[n], id, st);
      } else {
        SchedulerKeepsSettled(After(s, acts[..n]), acts[n], id, st);
      }
    }
  }

  /** The continuation replaces the status of the row. */
  ghost predicate Overwrites(s: State, acts: seq<Action>, id: int)
    requires id in s.rows
  {
    Valid(s, acts) && id in After(s, acts).rows && After(s, acts).rows[id].status != s.rows[id].status
  }

  ghost predicate CanBeOverwritten(s: State, id: int)
    requires id in s.rows
  {
    exists acts :: Overwrites(s, acts, id)
  }

  lemma PickOverwrites(s: State, id: int) returns (acts: seq<Action>)
    requires JobOk(s) && id in s.rows && Terminal(s.rows[id].status) && PickedNotWritten(s, id)
    ensures Overwrites(s, acts, id) && AllAtomic(acts)
  {
    acts := [];
    if s.pc.Picked? {
      Extend(s, acts, Assign);
      acts := acts + [Assign];
    }
    Extend(s, acts, WriteProvisioning);
    acts := acts + [WriteProvisioning];
  }

  lemma CancelOverwrites(s: State, id: int) returns (acts: seq<Action>)
    requires id in s.rows && s.rows[id].status != Canceled && CancelInFlight(s, id)
    ensures Overwrites(s, acts, id)
  {
    var c :| c in s.clients && s.clients[c] == Canceling(id);
    Extend(s, [], Resume(c));
    acts := [] + [Resume(c)];
  }

  lemma ServingOverwrites(s: State, id: int) returns (a: Action)
    requires ExecOk(s) && s.pc.Serving? && RunMayOverwrite(s, id)
    ensures Enabled(s, a) && Apply(s, a).rows == s.rows && ExecOk(Apply(s, a)) && RunMayOverwrite(Apply(s, a), id)
    ensures Rank(Apply(s, a).pc) < Rank(s.pc)
            || (Apply(s, a).pc == s.pc && ExecutorWork(Apply(s, a)) < ExecutorWork(s))
  {
    if !JobCancelled(s) || s.exec.value.main.Sent? {
      a := StartReturns(JobCancelled(s));
    } else {
      var step := FJ.StepTowardsNil(s.exec.value);
      a := Executor(step);
      ExecutorKeepsExecOk(s, step);
      FJ.StepDoesWork(s.exec.value, step);
    }
  }

  /** The next step by which the run gets to overwrite its row. */
  lemma NextOverwrite(s: State, id: int) returns (a: Action)
    requires JobOk(s) && HasRow(s, id, Canceled) && RunMayOverwrite(s, id) && !s.pc.Serving?
    ensures Enabled(s, a) && id in Apply(s, a).rows
    ensures HasRow(Apply(s, a), id, Canceled) ==>
              RunMayOverwrite(Apply(s, a), id) && Rank(Apply(s, a).pc) < Rank(s.pc)
  {
    match s.pc
    case Compiling => a := Compile(false);
    case Compiled => a := WriteRunning;
    case MarkedRunning => a := WriteStartedAt(0);
    case Launching => a := Launch(false);
    case Draining => a := Exit(true);
    case Failed => a := Decide;
    case Final(_) => a := WriteVerdict;
  }

  lemma {:induction false} RunOverwrites(s: State, id: int) returns (acts: seq<Action>)
    requires Inv(s) && HasRow(s, id, Canceled) && RunMayOverwrite(s, id)
    ensures Overwrites(s, acts, id)
    decreases Rank(s.pc), ExecutorWork(s)
  {
    var a;
    if s.pc.Serving? {
      a := ServingOverwrites(s, id);
    } else {
      a := NextOverwrite(s, id);
    }
    StepKeepsInv(s, a);
    if HasRow(Apply(s, a), id, Canceled) {
      var rest := RunOverwrites(Apply(s, a), id);
      Prepend(s, a, rest);
      acts := [a] + rest;
    } else {
      Extend(s, [], a);
      acts := [] + [a];
    }
  }

  lemma EndangeredIsOverwritten(s: State, id: int) returns (acts: seq<Action>)
    requires Inv(s) && Endangered(s, id) && Terminal(s.rows[id].status)
    ensures Overwrites(s, acts, id)
  {
    if PickedNotWritten(s, id) {
      acts := PickOverwrites(s, id);
    } else if RunMayOverwrite(s, id) {
      TerminalInRun(s, id);
      acts := RunOverwrites(s, id);
    } else {
      acts := CancelOverwrites(s, id);
    }
  }

  /**
   In every state of every run, a finished, cancelled or errored row can lose that
   status if and only if the scheduler picked it while it was pending and has yet
   to write provisioning, or it is not cancelled and a Cancel call that looked
   while it was live has yet to write, or it was cancelled by such a call and its
   own run is still going to write something else.
   */
  lemma TerminalOverwrittenIff(past: seq<Action>, id: int)
    requires Valid(Init(), past)
    requires id in After(Init(), past).rows && Terminal(After(Init(), past).rows[id].status)
    ensures CanBeOverwritten(After(Init(), past), id) <==> Endangered(After(Init(), past), id)
  {
    var s := After(Init(), past);
    RunKeepsInv(past);
    if Endangered(s, id) {
      var acts := EndangeredIsOverwritten(s, id);
    } else {
      forall acts | Valid(s, acts) ensures !Overwrites(s, acts, id) {
        RunKeepsSettled(s, acts, id, s.rows[id].status);
      }
    }
  }

  ghost predicate CanBeOverwrittenByWholeCalls(s: State, id: int)
    requires id in s.rows
  {
    exists acts :: AllAtomic(acts) && Overwrites(s, acts, id)
  }

  /** With whole Cancel and Delete calls, before and after, only the first of the three can happen. */
  lemma WholeCallsOverwriteIff(past: seq<Action>, id: int)
    requires Valid(Init(), past) && AllAtomic(past)
    requires id in After(Init(), past).rows && Terminal(After(Init(), past).rows[id].status)
    ensures CanBeOverwrittenByWholeCalls(After(Init(), past), id) <==> PickedNotWritten(After(Init(), past), id)
  {
    var s := After(Init(), past);
    RunKeepsInv(past);
    RunKeepsAtomicInv(past);
    if PickedNotWritten(s, id) {
      var acts := PickOverwrites(s, id);
    } else {
      TerminalOverwrittenIff(past, id);
      if RunMayOverwrite(s, id) {
        TerminalInRun(s, id);
        VerdictIsLast(s);
      }
    }
  }

  lemma VerdictIsLast(s: State)
    requires WritesOk(s) && PastAssigned(s.pc)
    ensures !Terminal(LastWrite(s))
  {
    if s.pc.Final? {
      VerdictIsTerminal(s.writes, s.pc.verdict);
    }
  }

  // ---------- Runs in which a terminal row does lose its status ----------

  /** With whole calls: an application is cancelled right after it was picked. */
  lemma CancelledWhilePicked() returns (acts: seq<Action>)
    ensures Valid(Init(), acts) && AllAtomic(acts)
    ensures var s := After(Init(), acts); HasRow(s, 1, Canceled) && PickedNotWritten(s, 1)
    ensures CanBeOverwrittenByWholeCalls(After(Init(), acts), 1)
  {
    acts := PickedFirst([]);
    Extend(Init(), acts, Cancel(1));
    acts := acts + [Cancel(1)];
    WholeCallsOverwriteIff(acts, 1);
  }

  /** A Cancel call that looked while the application was pending writes after it has finished. */
  lemma StaleCancelOverwritesFinished() returns (acts: seq<Action>)
    ensures Valid(Init(), acts)
    ensures var s := After(Init(), acts);
            HasRow(s, 1, Finished) && s.pc.Asleep? && !PickedNotWritten(s, 1) && s.clients == map[0 := Canceling(1)]
    ensures Valid(Init(), acts + [Resume(0)]) && HasRow(After(Init(), acts + [Resume(0)]), 1, Canceled)
  {
    acts := LookedAndStopped();
    Extend(Init(), acts, Pick(1));
    acts := VerdictWritten(acts + [Pick(1)], App(1, []));
    Extend(Init(), acts, Resume(0));
  }

  /** A picked application without users is run to its end. */
  lemma VerdictWritten(acts: seq<Action>, app: App) returns (more: seq<Action>)
    requires Valid(Init(), acts) && PickedWith(After(Init(), acts), app) && app.vus == []
    ensures Valid(Init(), more) && (AllAtomic(acts) ==> AllAtomic(more))
    ensures IsOver(After(Init(), acts), After(Init(), more), app)
  {
    var threads := JoinOfNobody();
    more := Completed(acts, app, threads);
    Extend(Init(), more, WriteVerdict);
    more := more + [WriteVerdict];
  }

  lemma JoinOfNobody() returns (threads: seq<FJ.Action>)
    ensures FJ.Joins([], FJ.Told([]), threads)
  {
    FJ.JoinCanHappenIff([], FJ.Told([]));
    threads :| FJ.Joins([], FJ.Told([]), threads);
  }

  /** Only the first application is there, and it has finished as the current job. */
  predicate FirstFinished(s: State) {
    && s.pc.Asleep? && HasRow(s, 1, Finished) && CurrentJob(s, 1)
    && s.rows.Keys == {1} && s.clients == map[] && s.nextId == 2
  }

  /** A finished application stays the current job until the next one is assigned. */
  lemma FinishedStaysCurrent() returns (acts: seq<Action>)
    ensures Valid(Init(), acts) && AllAtomic(acts) && FirstFinished(After(Init(), acts))
  {
    var picked := PickedFirst([]);
    acts := VerdictWritten(picked, App(1, []));
  }

  predicate SecondPending(s: State) {
    HasRow(s, 1, Finished) && HasRow(s, 2, Pending) && s.rows[2].vus == [] && s.rows.Keys == {1, 2}
  }

  /** Another application is created and picked while a Delete call has looked at it and not yet deleted it. */
  lemma DeleteLooked() returns (acts: seq<Action>)
    ensures Valid(Init(), acts) && SecondPending(After(Init(), acts))
    ensures PickedWith(After(Init(), acts), App(2, [])) && After(Init(), acts).clients == map[0 := Deleting(2)]
  {
    acts := FinishedStaysCurrent();
    acts := SecondCreated(acts);
    Extend(Init(), acts, DeleteCall(0, 2));
    acts := acts + [DeleteCall(0, 2)];
    Extend(Init(), acts, Pick(2));
    acts := acts + [Pick(2)];
  }

  lemma SecondCreated(acts: seq<Action>) returns (more: seq<Action>)
    requires Valid(Init(), acts) && FirstFinished(After(Init(), acts))
    ensures Valid(Init(), more) && SecondPending(After(Init(), more))
    ensures After(Init(), more).pc.Asleep? && After(Init(), more).clients == map[]
  {
    var at := After(Init(), acts).clock;
    Extend(Init(), acts, Create([], at));
    more := acts + [Create([], at)];
  }

  /** The row has finished, and the current job has lost its app. */
  predicate LostOver(s: State, id: int) {
    HasRow(s, id, Finished) && JobLostItsApp(s)
  }

  /** That application is deleted before the last write of its run, which then loses the job its app. */
  lemma DeletedWhileRun() returns (acts: seq<Action>)
    ensures Valid(Init(), acts) && LostOver(After(Init(), acts), 1)
  {
    acts := DeleteLooked();
    var threads := JoinOfNobody();
    acts := Completed(acts, App(2, []), threads);
    acts := DeletedAtTheEnd(acts);
  }

  predicate VerdictBeforeDelete(s: State) {
    && s.pc == Final(Finished) && CurrentJob(s, 2) && HasRow(s, 1, Finished)
    && s.clients == map[0 := Deleting(2)]
  }

  lemma DeletedAtTheEnd(acts: seq<Action>) returns (more: seq<Action>)
    requires Valid(Init(), acts) && VerdictBeforeDelete(After(Init(), acts))
    ensures Valid(Init(), more) && LostOver(After(Init(), more), 1)
  {
    Extend(Init(), acts, Resume(0));
    more := acts + [Resume(0)];
    Extend(Init(), more, WriteVerdict);
    more := more + [WriteVerdict];
  }

  // ---------- Crash recovery ----------

  /**
   From any state of any run, a crash and the next boot leave no running row,
   turn the running one into a cancelled one, change no other row, and put the
   scheduler back to its loop with no current job and its invariants in force.
   */
  lemma CrashRecovery(past: seq<Action>)
    requires Valid(Init(), past) && !After(Init(), past).pc.Down?
    ensures var s := After(Init(), past);
            var s' := Apply(Apply(s, Crash), Boot);
            && s'.pc.Asleep? && s'.job.None? && Inv(s') && AtomicInv(s')
            && s'.rows.Keys == s.rows.Keys
            && (forall id | id in s.rows :: s'.rows[id] ==
                  if s.rows[id].status == Running then s.rows[id].(status := Canceled) else s.rows[id])
            && (forall id | id in s'.rows :: s'.rows[id].status != Running)
  {
    RunKeepsInv(past);
    var s := After(Init(), past);
    StepKeepsInv(s, Crash);
    StepKeepsInv(Apply(s, Crash), Boot);
  }

  /** A provisioning row that no run and no Cancel or Delete call in flight is about. */
  predicate Orphan(s: State, id: int) {
    && HasRow(s, id, Provisioning)
    && !(s.pc.Picked? && s.pc.app.id == id)
    && !(InRun(s.pc) && CurrentJob(s, id))
    && (forall c | c in s.clients :: s.clients[c] == Signalling || s.clients[c].id != id)
  }

  predicate CallsCancel(a: Action, id: int) {
    a == Cancel(id) || (a.CancelCall? && a.id == id)
  }

  lemma SchedulerKeepsOrphan(s: State, a: Action, id: int)
    requires Orphan(s, id) && Enabled(s, a) && !ByClient(a)
    ensures Orphan(Apply(s, a), id)
  {
  }

  lemma ClientKeepsOrphan(s: State, a: Action, id: int)
    requires RowsOk(s) && Orphan(s, id) && Enabled(s, a) && ByClient(a) && !CallsCancel(a, id)
    ensures Orphan(Apply(s, a), id)
  {
  }

  lemma {:induction false} RunKeepsOrphan(s: State, acts: seq<Action>, id: int)
    requires Inv(s) && Orphan(s, id) && Valid(s, acts)
    requires forall a | a in acts :: !CallsCancel(a, id)
    ensures Inv(After(s, acts)) && Orphan(After(s, acts), id)
  {
    if acts != [] {
      var n := |acts| - 1;
      RunKeepsOrphan(s, acts[..n], id);
      StepKeepsInv(After(s, acts[..n]), acts[n]);
      if ByClient(acts[n]) {
        ClientKeepsOrphan(After(s, acts[..n]), acts[n], id);
      } else {
        SchedulerKeepsOrphan(After(s, acts[..n]), acts[n], id);
      }
    }
  }

  /**
   A row that a crash leaves in provisioning keeps that status and is never
   picked again, through every further run, further crashes included, in which
   nobody calls CancelApplication for it.
   */
  lemma ProvisioningIsNeverRerun(past: seq<Action>, acts: seq<Action>, id: int)
    requires Valid(Init(), past) && !After(Init(), past).pc.Down?
    requires HasRow(After(Init(), past), id, Provisioning)
    requires Valid(Apply(Apply(After(Init(), past), Crash), Boot), acts)
    requires forall a | a in acts :: !CallsCancel(a, id)
    ensures var s' := After(Apply(Apply(After(Init(), past), Crash), Boot), acts);
            && HasRow(s', id, Provisioning)
            && !(s'.pc.Picked? && s'.pc.app.id == id) && !(InRun(s'.pc) && CurrentJob(s', id))
  {
    CrashRecovery(past);
    RunKeepsOrphan(Apply(Apply(After(Init(), past), Crash), Boot), acts, id);
  }

  // ---------- Cancel and Delete, whole and step by step ----------

  /** A whole Cancel is what its steps do when nothing comes between them. */
  lemma CancelIsItsSteps(s: State, c: nat, id: int) returns (acts: seq<Action>)
    requires !s.pc.Down? && c !in s.clients
    ensures Valid(s, acts) && After(s, acts) == Apply(s, Cancel(id))
    ensures forall a | a in acts :: a == CancelCall(c, id) || a == Resume(c)
  {
    acts := [CancelCall(c, id)];
    Extend(s, [], CancelCall(c, id));
    assert [] + [CancelCall(c, id)] == acts;
    while c in After(s, acts).clients
      invariant Valid(s, acts) && forall a | a in acts :: a == CancelCall(c, id) || a == Resume(c)
      invariant var s' := After(s, acts);
                if c in s'.clients then
                  && s' == s.(clients := s.clients[c := s'.clients[c]]) && !JobLostItsApp(s)
                  && (if s'.clients[c].Signalling? then CurrentJob(s, id)
                      else if s'.clients[c].Looking? then !CurrentJob(s, id) && s'.clients[c].id == id
                      else s'.clients[c] == Canceling(id) && !CurrentJob(s, id)
                           && id in s.rows && !Terminal(s.rows[id].status))
                else s' == Apply(s, Cancel(id))
      decreases var s' := After(s, acts); if c !in s'.clients then 0 else if s'.clients[c].Looking? then 2 else 1
    {
      assert s.clients[c := After(s, acts).clients[c]] - {c} == s.clients;
      Extend(s, acts, Resume(c));
      acts := acts + [Resume(c)];
    }
  }

  lemma DeleteIsItsSteps(s: State, c: nat, id: int) returns (acts: seq<Action>)
    requires !s.pc.Down? && c !in s.clients
    ensures Valid(s, acts) && After(s, acts) == Apply(s, Delete(id))
    ensures forall a | a in acts :: a == DeleteCall(c, id) || a == Resume(c)
  {
    acts := [DeleteCall(c, id)];
    Extend(s, [], DeleteCall(c, id));
    assert [] + [DeleteCall(c, id)] == acts;
    if c in After(s, acts).clients {
      assert s.clients[c := Deleting(id)] - {c} == s.clients;
      Extend(s, acts, Resume(c));
      acts := acts + [Resume(c)];
    }
  }

  /** The scheduler has just written provisioning for the row, which is cancelled. */
  predicate CanceledBehindItsBack(s: State, id: int) {
    s.pc.Compiling? && CurrentJob(s, id) && s.writes == [Provisioning] && HasRow(s, id, Canceled)
  }

  /**
   Interrupted between its look and its write, a Cancel does break the agreement,
   and the scheduler then turns the cancelled row into a running one.
   */
  lemma InterruptedCancelIsUndone() returns (before: seq<Action>, after: seq<Action>)
    ensures Valid(Init(), before) && Valid(Init(), after) && before <= after
    ensures CanceledBehindItsBack(After(Init(), before), 1)
    ensures HasRow(After(Init(), after), 1, Running)
  {
    before := LookedAndStopped();
    Extend(Init(), before, Pick(1));
    before := before + [Pick(1)];
    before := TakenUp(before, App(1, []));
    Extend(Init(), before, Resume(0));
    before := before + [Resume(0)];
    after := RunningAgain(before);
  }

  lemma RunningAgain(before: seq<Action>) returns (after: seq<Action>)
    requires Valid(Init(), before)
    requires var s := After(Init(), before); s.pc.Compiling? && CurrentJob(s, 1) && JobCanSave(s)
    ensures Valid(Init(), after) && before <= after && HasRow(After(Init(), after), 1, Running)
  {
    Extend(Init(), before, Compile(true));
    Extend(Init(), before + [Compile(true)], WriteRunning);
    after := before + [Compile(true)] + [WriteRunning];
  }

  /** A Cancel call has found the only application pending and is about to write. */
  lemma LookedAndStopped() returns (acts: seq<Action>)
    ensures Valid(Init(), acts)
    ensures var s := After(Init(), acts);
            && s.pc.Asleep? && s.rows == map[1 := Row(Pending, 0, None, [])] && s.writes == []
            && s.clients == map[0 := Canceling(1)]
  {
    acts := [];
    Extend(Init(), acts, Boot);
    acts := acts + [Boot];
    Extend(Init(), acts, Create([], 0));
    acts := acts + [Create([], 0)];
    Extend(Init(), acts, CancelCall(0, 1));
    acts := acts + [CancelCall(0, 1)];
    Extend(Init(), acts, Resume(0));
    acts := acts + [Resume(0)];
  }
}
