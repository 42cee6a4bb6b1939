/**
 The master's own code, over the fields it updates.  Every method is one or more
 actions of the job protocol: the ghost field `trace` lists the actions taken
 since the process was installed and `Ok` says that the fields are what those
 actions lead to, so that everything proved about runs of the protocol holds of
 the fields between any two calls.
 */
module MasterCode {
  import opened Wrappers
  import FJ = ForkJoin
  import opened Jobs
  import opened JobSafety
  import opened JobFrames
  import opened JobTheorems
  import opened JobLiveness

  datatype CancelError = NotFound | ErrAppIsFinished | Panicked

  datatype DeleteError = NoSuchApplication | ErrCantDeleteApp(status: Status)

  datatype RunError = ErrAppIsCanceled | RunFailed

  /** How the world outside the scheduler thread behaves during one run. */
  datatype Env = Env(
    calls: map<nat, seq<Action>>, // what clients call at the numbered points of the round
    compileOk: bool,
    now: int,
    launchOk: bool,               // the command starts and its server answers in time
    threads: seq<FJ.Action>,      // the order in which the executor's goroutines ask to step
    startOk: bool,                // no failure of the Start call itself
    exitOk: bool)                 // the process exits with status 0

  function CallsAt(env: Env, point: nat): seq<Action> {
    if point in env.calls then env.calls[point] else []
  }

  /** The status that the error of a run stands for. */
  function Verdict(err: Option<RunError>): Status {
    match err
    case None => Finished
    case Some(ErrAppIsCanceled) => Canceled
    case Some(RunFailed) => Errored
  }

  /** The three outcomes of a run are the three terminal statuses. */
  lemma VerdictsAre()
    ensures Verdict(None) == Finished
    ensures Verdict(Some(ErrAppIsCanceled)) == Canceled
    ensures Verdict(Some(RunFailed)) == Errored
  {
  }

  /** No client cancels or deletes this application during the round. */
  predicate Spared(env: Env, id: int) {
    forall point | point in env.calls :: Spares(env.calls[point], id)
  }

  /** Every stage of the round goes well, and the goroutines get as far as sending nil. */
  predicate AllStagesOk(env: Env, vus: seq<int>) {
    env.compileOk && env.launchOk && env.startOk && env.exitOk && Reached(FJ.Begin(vus), env.threads).main.Sent?
  }

  /** In a run whose row is spared, the job can still be saved after any calls. */
  lemma SparedCanSave(past: seq<Action>, calls: seq<Action>, id: int)
    requires Valid(Init(), past) && Spares(calls, id)
    requires JobCanSave(After(Init(), past)) && CurrentJob(After(Init(), past), id)
    ensures var s := Landed(After(Init(), past), calls); JobCanSave(s) && CurrentJob(s, id)
  {
    RunKeepsInv(past);
    SparedIsLeft(After(Init(), past), calls, id);
  }

  /** The executor has sent nil, which means that all users of a safe scenario have returned. */
  ghost predicate AllReturned(exec: Option<FJ.State>, vus: seq<int>) {
    && exec.Some? && exec.value.nu == vus && exec.value.main.Sent?
    && (Safe(vus) ==> exec.value.finished == FJ.Users(vus))
  }

  lemma FinishedRunJoined(acts: seq<Action>)
    requires Valid(Init(), acts) && After(Init(), acts).pc == Final(Finished)
    ensures var s := After(Init(), acts);
            s.job.Some? && s.job.value.app.Some? && AllReturned(s.exec, s.job.value.app.value.vus)
  {
    RunKeepsInv(acts);
    var s := After(Init(), acts);
    if Safe(s.exec.value.nu) {
      FJ.SafeJoin(s.exec.value);
    }
  }

  lemma VerdictFindsTheRow(acts: seq<Action>)
    requires Valid(Init(), acts) && AllAtomic(acts) && After(Init(), acts).pc.Final?
    ensures var s := After(Init(), acts);
            s.job.Some? && s.job.value.app.Some? && s.job.value.app.value.id in s.rows
  {
    RunKeepsInv(acts);
    RunKeepsAtomicInv(acts);
  }

  class RunningJob {
    var app: Option<App>
    var cancelled: bool

    constructor (a: App)
      ensures app == Some(a) && !cancelled
    {
      app, cancelled := Some(a), false;
    }
  }

  /** What CancelApplication answers in state s. */
  function CancelReply(s: State, id: int): Result<Row, CancelError> {
    if JobLostItsApp(s) then Failure(Panicked)
    else if CurrentJob(s, id) then
      if id in s.rows then Success(s.rows[id]) else Failure(NotFound)
    else if id !in s.rows then Failure(NotFound)
    else if s.rows[id].status == Canceled then Success(s.rows[id])
    else if Terminal(s.rows[id].status) then Failure(ErrAppIsFinished)
    else Success(s.rows[id].(status := Canceled))
  }

  /** The reply the comment above CancelApplication promises for a row that is finished or errored. */
  predicate RepliesFinished(s: State, id: int) {
    CancelReply(s, id) == Failure(ErrAppIsFinished)
  }

  /**
   In any state: unless the last job has lost its app, a cancelled row is answered
   with itself and a live row of another job becomes cancelled.  The promised
   ErrAppIsFinished for a finished or errored row comes if and only if the row is
   not that of the last job, which m.job still points to, and that job has not
   lost its app.
   */
  lemma CancelKeepsItsPromiseIff(s: State, id: int)
    requires id in s.rows
    ensures var st := s.rows[id].status;
            && (st == Canceled && !JobLostItsApp(s) ==>
                  CancelReply(s, id) == Success(s.rows[id]) && CancelEffect(s, id).rows == s.rows)
            && (!Terminal(st) && !CurrentJob(s, id) && !JobLostItsApp(s) ==>
                  CancelReply(s, id) == Success(CancelEffect(s, id).rows[id])
                  && CancelEffect(s, id).rows[id].status == Canceled)
            && (st == Finished || st == Errored ==>
                  (RepliesFinished(s, id) <==> !CurrentJob(s, id) && !JobLostItsApp(s)))
            && (JobLostItsApp(s) <==> CancelReply(s, id) == Failure(Panicked))
  {
  }

  /** For an id without a row the caller gets NotFound, the current job's or not, and no row changes. */
  lemma CancelOfNothing(s: State, id: int)
    requires id !in s.rows && !JobLostItsApp(s)
    ensures CancelReply(s, id) == Failure(NotFound) && CancelEffect(s, id).rows == s.rows
  {
  }

  /** In a run in which no late write hits the current job's row, only the first of the two conditions is left. */
  lemma UninterruptedPromiseIff(past: seq<Action>, id: int)
    requires Valid(Init(), past) && Uninterrupted(past)
    requires HasRow(After(Init(), past), id, Finished) || HasRow(After(Init(), past), id, Errored)
    ensures RepliesFinished(After(Init(), past), id) <==> !CurrentJob(After(Init(), past), id)
  {
    UninterruptedKeepsApp(past);
    CancelKeepsItsPromiseIff(After(Init(), past), id);
  }

  /** The promise is broken by a run of whole calls: the last job has finished and is still the current one. */
  lemma PromiseIsBroken() returns (past: seq<Action>)
    ensures Valid(Init(), past) && AllAtomic(past)
    ensures var s := After(Init(), past); HasRow(s, 1, Finished) && CancelReply(s, 1) == Success(s.rows[1])
  {
    past := FinishedStaysCurrent();
    RunKeepsAtomicInv(past);
  }

  /** It is broken by a run with an interrupted Delete as well: the caller panics over the row of another job. */
  lemma PromiseIsBrokenByDelete() returns (past: seq<Action>)
    ensures Valid(Init(), past)
    ensures var s := After(Init(), past);
            HasRow(s, 1, Finished) && !CurrentJob(s, 1) && CancelReply(s, 1) == Failure(Panicked)
  {
    past := DeletedWhileRun();
  }

  /** What the goroutines of an executor come to when they ask to step in this order and each does if it can. */
  function Reached(e: FJ.State, threads: seq<FJ.Action>): FJ.State {
    if threads == [] then e
    else
      var before := Reached(e, threads[..|threads| - 1]);
      if FJ.Enabled(before, threads[|threads| - 1]) then FJ.Apply(before, threads[|threads| - 1]) else before
  }

  /** The steps they take. */
  function Taken(e: FJ.State, threads: seq<FJ.Action>): seq<Action> {
    if threads == [] then []
    else
      var before := Taken(e, threads[..|threads| - 1]);
      if FJ.Enabled(Reached(e, threads[..|threads| - 1]), threads[|threads| - 1])
      then before + [Executor(threads[|threads| - 1])] else before
  }

  class Master {
    var rows: map<int, Row>
    var nextId: int
    var clock: int
    var job: RunningJob?
    var exec: Option<FJ.State>
    ghost var pc: Pc
    ghost var writes: seq<Status>
    ghost var runs: seq<seq<Status>>
    ghost var picks: seq<int>
    ghost var trace: seq<Action>

    ghost function View(): State
      reads this, job
    {
      State(rows, nextId, clock, if job == null then None else Some(Job(job.app, job.cancelled)),
            pc, exec, map[], writes, runs, picks)
    }

    ghost predicate Ok()
      reads this, job
    {
      Valid(Init(), trace) && AllAtomic(trace) && After(Init(), trace) == View()
    }

    constructor ()
      ensures Ok() && View() == Init() && trace == []
    {
      rows, nextId, clock, job := map[], 1, 0, null;
      pc, exec, writes, runs, picks, trace := Down, None, [], [], [], [];
    }

    /** The fields have just moved by action a. */
    ghost method Record(a: Action)
      requires Valid(Init(), trace) && AllAtomic(trace) && Enabled(After(Init(), trace), a) && Atomic(a)
      requires View() == Apply(After(Init(), trace), a)
      modifies `trace
      ensures Ok() && trace == old(trace) + [a]
    {
      Extend(Init(), trace, a);
      trace := trace + [a];
    }

    /** Booting: the scheduler thread is started and one update turns running rows into cancelled ones. */
    method CleanupRunningApps()
      requires Ok() && pc.Down?
      modifies this
      ensures Ok() && trace == old(trace) + [Boot]
      ensures rows.Keys == old(rows).Keys
      ensures forall id | id in rows :: rows[id] ==
                if old(rows)[id].status == Running then old(rows)[id].(status := Canceled) else old(rows)[id]
    {
      rows := Cleaned(rows);
      pc := Asleep;
      Record(Boot);
    }

    method NewApplication(vus: seq<int>, now: int) returns (id: int)
      requires Ok() && !pc.Down? && clock <= now
      modifies `rows, `nextId, `clock, `trace
      ensures Ok() && trace == old(trace) + [Create(vus, now)]
      ensures id !in old(rows) && rows == old(rows)[id := Row(Pending, now, None, vus)]
    {
      RunKeepsInv(trace);
      id := nextId;
      rows := rows[id := Row(Pending, now, None, vus)];
      nextId, clock := nextId + 1, now;
      Record(Create(vus, now));
    }

    method DeleteApplication(id: int) returns (r: Result<(), DeleteError>)
      requires Ok() && !pc.Down?
      modifies `rows, `trace
      ensures Ok() && trace == old(trace) + [Delete(id)]
      ensures r.Success? <==> id in old(rows) && old(rows)[id].status in {Pending, Canceled, Finished, Errored}
      ensures id !in old(rows) ==> r == Failure(NoSuchApplication)
      ensures id in old(rows) && old(rows)[id].status in {Provisioning, Running} ==>
                r == Failure(ErrCantDeleteApp(old(rows)[id].status))
      ensures rows == if r.Success? then old(rows) - {id} else old(rows)
    {
      if id !in rows {
        r := Failure(NoSuchApplication);
      } else if rows[id].status != Pending && rows[id].status != Canceled &&
                rows[id].status != Finished && rows[id].status != Errored {
        r := Failure(ErrCantDeleteApp(rows[id].status));
      } else {
        rows := rows - {id};
        r := Success(());
      }
      Record(Delete(id));
    }

    /** cancel: None when the signal was sent, otherwise whether the caller panicked on a nil app. */
    method CancelSignal(id: int) returns (notRunning: bool, panicked: bool)
      modifies job
      ensures panicked <==> JobLostItsApp(old(View()))
      ensures !panicked ==> (notRunning <==> !CurrentJob(old(View()), id))
      ensures View() == if panicked || notRunning then old(View()) else CancelJob(old(View()))
      ensures job != null ==>
                job.app == old(job.app) && job.cancelled == (old(job.cancelled) || CurrentJob(old(View()), id))
    {
      notRunning, panicked := true, false;
      if job != null {
        if job.app.None? {
          panicked := true;
        } else if job.app.value.id == id {
          job.cancelled := true;
          notRunning := false;
        }
      }
    }

    method CancelApplication(id: int) returns (r: Result<Row, CancelError>)
      requires Ok() && !pc.Down?
      modifies `rows, `trace, job
      ensures Ok() && trace == old(trace) + [Cancel(id)]
      ensures r == CancelReply(old(View()), id)
      ensures job != null ==>
                job.app == old(job.app) && job.cancelled == (old(job.cancelled) || CurrentJob(old(View()), id))
      ensures rows ==
              if id in old(rows) && !JobLostItsApp(old(View())) && !CurrentJob(old(View()), id)
                 && old(rows)[id].status in {Pending, Provisioning, Running}
              then old(rows)[id := old(rows)[id].(status := Canceled)] else old(rows)
    {
      var notRunning, panicked := CancelSignal(id);
      if panicked {
        r := Failure(Panicked);
      } else if id !in rows {
        r := Failure(NotFound);
      } else if !notRunning || rows[id].status == Canceled {
        r := Success(rows[id]);
      } else if rows[id].status == Finished || rows[id].status == Errored {
        r := Failure(ErrAppIsFinished);
      } else {
        rows := rows[id := rows[id].(status := Canceled)];
        r := Success(rows[id]);
      }
      Record(Cancel(id));
    }

    /** The query of nextApplication: the first pending row by created_at. */
    method NextApplication() returns (next: Option<App>)
      ensures next.None? <==> PendingRows(View()) == {}
      ensures next.Some? ==> OldestPending(View(), next.value.id) && next.value.vus == rows[next.value.id].vus
    {
      ghost var pending := PendingRows(View());
      if pendingRow :| pendingRow in rows && rows[pendingRow].status == Pending {
        assert pendingRow in pending;
        ghost var oldest := OldestExists(rows, pending);
        assert forall other | other in rows && rows[other].status == Pending :: other in pending;
        var first :| first in rows && rows[first].status == Pending
          && forall other | other in rows && rows[other].status == Pending ::
               rows[first].createdAt <= rows[other].createdAt;
        assert OldestPending(View(), first);
        next := Some(App(first, rows[first].vus));
      } else {
        assert forall id :: id !in pending;
        next := None;
      }
    }

    /** setStatus, through a live context or through the job's own. */
    method SetStatus(background: bool, st: Status) returns (ok: bool)
      requires job != null && job.app.Some?
      modifies `rows, job`app
      ensures ok <==> (background || !job.cancelled) && old(job.app).value.id in old(rows)
      ensures ok ==> job.app == old(job.app)
      ensures ok ==> rows == old(rows)[job.app.value.id := old(rows)[job.app.value.id].(status := st)]
      ensures !ok ==> job.app.None? && rows == old(rows)
    {
      var id := job.app.value.id;
      ok := (background || !job.cancelled) && id in rows;
      if ok {
        rows := rows[id := rows[id].(status := st)];
      } else {
        job.app := None;
      }
    }

    /** One call of some client, if it is a whole call that can be made now. */
    method ClientCall(call: Action)
      requires Ok() && !pc.Down?
      modifies `rows, `nextId, `clock, `trace, job
      ensures Ok() && trace == old(trace) + if Callable(old(View()), call) then [call] else []
      ensures View() == if Callable(old(View()), call) then Apply(old(View()), call) else old(View())
      ensures job != null ==> job.app == old(job.app) && (old(job.cancelled) ==> job.cancelled)
    {
      if Callable(View(), call) {
        Extend(Init(), trace, call);
      }
      match call
      case Create(vus, at) =>
        if clock <= at {
          var id := NewApplication(vus, at);
        }
      case Cancel(id) =>
        var reply := CancelApplication(id);
      case Delete(id) =>
        var reply := DeleteApplication(id);
      case _ =>
    }

    /** What clients call while the scheduler thread is between two of its steps. */
    method Interference(calls: seq<Action>)
      requires Ok() && !pc.Down?
      modifies `rows, `nextId, `clock, `trace, job
      ensures Ok() && old(trace) <= trace && View() == Landed(old(View()), calls)
      ensures job != null ==> job.app == old(job.app) && (old(job.cancelled) ==> job.cancelled)
    {
      for k := 0 to |calls|
        invariant Ok() && old(trace) <= trace && View() == Landed(old(View()), calls[..k])
        invariant job != null ==> job.app == old(job.app) && (old(job.cancelled) ==> job.cancelled)
      {
        assert calls[..k + 1][..k] == calls[..k];
        ClientCall(calls[k]);
      }
      assert calls[..|calls|] == calls;
    }

    /** The panic in the deferred block of run ends the process. */
    method Panic(ghost a: Action)
      requires Valid(Init(), trace) && AllAtomic(trace) && Enabled(After(Init(), trace), a) && Atomic(a)
      requires Apply(After(Init(), trace), a) == Crashed(After(Init(), trace))
      requires var s := After(Init(), trace);
               s.rows == rows && s.nextId == nextId && s.clock == clock && s.runs == runs && s.picks == picks
      modifies this
      ensures Ok() && pc.Down? && job == null && trace == old(trace) + [a] && runs == old(runs)
    {
      job := null;
      pc, exec, writes := Down, None, [];
      Record(a);
    }

    /** Starting the command and connecting to its server. */
    method StartExecutor(ok: bool)
      requires Ok() && pc.Launching? && job != null && job.app.Some? && (ok ==> !job.cancelled)
      modifies `pc, `exec, `trace
      ensures Ok() && trace == old(trace) + [Launch(ok)]
      ensures if ok then pc == Serving && exec == Some(FJ.Begin(job.app.value.vus)) else pc == Failed
    {
      if ok {
        pc, exec := Serving, Some(FJ.Begin(job.app.value.vus));
      } else {
        pc := Failed;
      }
      Record(Launch(ok));
    }

    /** One goroutine of the executor asks to step, and does if it can. */
    method StepExecutor(thread: FJ.Action)
      requires Ok() && pc.Serving? && exec.Some?
      modifies `exec, `trace
      ensures Ok() && exec.Some?
      ensures trace == old(trace) + if FJ.Enabled(old(exec).value, thread) then [Executor(thread)] else []
      ensures exec.value == if FJ.Enabled(old(exec).value, thread) then FJ.Apply(old(exec).value, thread)
                            else old(exec).value
    {
      if FJ.Enabled(exec.value, thread) {
        exec := Some(FJ.Apply(exec.value, thread));
        Record(Executor(thread));
      }
    }

    /** The goroutines of the executor step in the given order, as far as each of them can. */
    method ServeExecutor(threads: seq<FJ.Action>)
      requires Ok() && pc.Serving? && exec.Some?
      modifies `exec, `trace
      ensures Ok() && trace == old(trace) + Taken(old(exec).value, threads)
      ensures exec == Some(Reached(old(exec).value, threads))
    {
      for k := 0 to |threads|
        invariant Ok() && trace == old(trace) + Taken(old(exec).value, threads[..k])
        invariant exec == Some(Reached(old(exec).value, threads[..k]))
      {
        assert threads[..k + 1][..k] == threads[..k];
        StepExecutor(threads[k]);
      }
      assert threads[..|threads|] == threads;
    }

    method StartCallReturns(ok: bool)
      requires Ok() && pc.Serving? && exec.Some? && (ok ==> exec.value.main.Sent?)
      modifies `pc, `trace
      ensures Ok() && trace == old(trace) + [StartReturns(ok)] && pc == if ok then Draining else Failed
    {
      pc := if ok then Draining else Failed;
      Record(StartReturns(ok));
    }

    method WaitForExit(ok: bool)
      requires Ok() && pc.Draining?
      modifies `pc, `trace
      ensures Ok() && trace == old(trace) + [Exit(ok)] && pc == if ok then Final(Finished) else Failed
    {
      pc := if ok then Final(Finished) else Failed;
      Record(Exit(ok));
    }

    /** The agent's RunJob: nil only after every stage has succeeded and the executor has joined. */
    method RunJob(env: Env) returns (ok: bool)
      requires Ok() && pc.Launching? && job != null && job.app.Some?
      modifies `pc, `exec, `trace
      ensures Ok() && old(trace) <= trace
      ensures pc == if ok then Final(Finished) else Failed
      ensures ok <==> env.launchOk && !job.cancelled && env.startOk && env.exitOk
                      && Reached(FJ.Begin(job.app.value.vus), env.threads).main.Sent?
      ensures ok ==> AllReturned(exec, job.app.value.vus)
    {
      ok := env.launchOk && !job.cancelled;
      StartExecutor(ok);
      if ok {
        ServeExecutor(env.threads);
        ok := env.startOk && exec.value.main.Sent?;
        StartCallReturns(ok);
        if ok {
          ok := env.exitOk;
          WaitForExit(ok);
          if ok {
            FinishedRunJoined(trace);
          }
        }
      }
    }

    /** A setStatus of run followed by its `return`: when it fails, the deferred block panics. */
    method AdvanceStatus(st: Status) returns (ok: bool)
      requires Ok() && job != null && job.app.Some?
      requires (st == Provisioning && pc.Assigned?) || (st == Running && pc.Compiled?)
      modifies this, job
      ensures Ok() && trace == old(trace) + [if st == Provisioning then WriteProvisioning else WriteRunning]
      ensures runs == old(runs)
      ensures ok <==> JobCanSave(old(View()))
      ensures ok ==> job == old(job) && job.app == old(job.app) && job.cancelled == old(job.cancelled)
                     && pc == (if st == Provisioning then Compiling else MarkedRunning)
                     && rows == old(rows)[job.app.value.id := old(rows)[job.app.value.id].(status := st)]
      ensures !ok ==> pc.Down? && job == null
    {
      ghost var a := if st == Provisioning then WriteProvisioning else WriteRunning;
      ok := SetStatus(false, st);
      if ok {
        pc := if st == Provisioning then Compiling else MarkedRunning;
        writes := writes + [st];
        Record(a);
      } else {
        Panic(a);
      }
    }

    /** The update of started_at, whose failure leaves the job's app alone. */
    method StampStart(now: int) returns (ok: bool)
      requires Ok() && pc.MarkedRunning? && job != null && job.app.Some?
      modifies `rows, `pc, `trace
      ensures Ok() && trace == old(trace) + [WriteStartedAt(now)]
      ensures ok <==> JobCanSave(old(View()))
      ensures pc == if ok then Launching else Failed
      ensures rows == if ok then old(rows)[job.app.value.id := old(rows)[job.app.value.id].(startedAt := Some(now))]
                      else old(rows)
    {
      var id := job.app.value.id;
      ok := !job.cancelled && id in rows;
      if ok {
        rows := rows[id := rows[id].(startedAt := Some(now))];
      }
      pc := if ok then Launching else Failed;
      Record(WriteStartedAt(now));
    }

    method JobCompile(ok: bool)
      requires Ok() && pc.Compiling?
      modifies `pc, `trace
      ensures Ok() && trace == old(trace) + [Compile(ok)] && pc == if ok then Compiled else Failed
    {
      pc := if ok then Compiled else Failed;
      Record(Compile(ok));
    }

    /** The first half of the deferred block: the verdict on a run that failed. */
    method NormalizeError() returns (je: Status, err: RunError)
      requires Ok() && pc.Failed? && job != null
      modifies `pc, `trace
      ensures Ok() && trace == old(trace) + [Decide] && pc == Final(je)
      ensures err == if job.cancelled then ErrAppIsCanceled else RunFailed
      ensures je == Verdict(Some(err))
    {
      je, err := Errored, RunFailed;
      if job.cancelled {
        je, err := Canceled, ErrAppIsCanceled;
      }
      pc := Final(je);
      Record(Decide);
    }

    /** The last setStatus, through a context of its own. */
    method WriteFinal(je: Status)
      requires Ok() && job != null && job.app.Some? && pc == Final(je)
      modifies `rows, `pc, `writes, `runs, `trace, job`app
      ensures Ok() && trace == old(trace) + [WriteVerdict] && pc.Asleep? && job.app == old(job.app)
      ensures HasRow(View(), old(job.app).value.id, je)
      ensures old(job.app).value.id in old(rows)
              && rows == old(rows)[old(job.app).value.id := old(rows)[old(job.app).value.id].(status := je)]
      ensures runs == old(runs) + [old(writes) + [je]]
    {
      VerdictFindsTheRow(trace);
      var saved := SetStatus(true, je);
      pc := Asleep;
      writes := writes + [je];
      runs := runs + [writes];
      Record(WriteVerdict);
    }

    /** The deferred block of run, entered with run's error or without one. */
    method Deferred(failed: bool) returns (err: Option<RunError>)
      requires Ok() && job != null && job.app.Some? && pc == if failed then Failed else Final(Finished)
      modifies `rows, `pc, `writes, `runs, `trace, job`app
      ensures Ok() && old(trace) <= trace && pc.Asleep? && job.app == old(job.app)
      ensures err == if !failed then None else if old(job.cancelled) then Some(ErrAppIsCanceled) else Some(RunFailed)
      ensures HasRow(View(), old(job.app).value.id, Verdict(err))
      ensures runs == old(runs) + [old(writes) + [Verdict(err)]]
    {
      var je := Finished;
      err := None;
      if failed {
        var cause;
        je, cause := NormalizeError();
        err := Some(cause);
      }
      WriteFinal(je);
    }

    /** The same while a job is running; calls that spare its row leave it able to be saved. */
    method InterfereSpared(calls: seq<Action>, ghost id: int)
      requires Ok() && !pc.Down? && job != null && job.app.Some? && job.app.value.id == id
      modifies `rows, `nextId, `clock, `trace, job
      ensures Ok() && old(trace) <= trace && View() == Landed(old(View()), calls)
      ensures job.app == old(job.app) && (old(job.cancelled) ==> job.cancelled)
      ensures Spares(calls, id) && JobCanSave(old(View())) ==> JobCanSave(View())
    {
      if Spares(calls, id) && JobCanSave(View()) {
        SparedCanSave(trace, calls, id);
      }
      Interference(calls);
    }

    /** Some calls, and the compilation. */
    method CompileStage(env: Env) returns (ok: bool)
      requires Ok() && pc.Compiling? && job != null && job.app.Some?
      modifies `rows, `nextId, `clock, `pc, `trace, job
      ensures Ok() && old(trace) <= trace && job.app == old(job.app)
      ensures ok == env.compileOk && pc == if ok then Compiled else Failed
      ensures Spared(env, old(job.app).value.id) && JobCanSave(old(View())) ==> JobCanSave(View())
    {
      InterfereSpared(CallsAt(env, 1), job.app.value.id);
      JobCompile(env.compileOk);
      ok := env.compileOk;
    }

    /** The first half of run: provisioning is written and the scenario compiled. */
    method Provision(env: Env) returns (ok: bool)
      requires Ok() && pc.Assigned? && job != null && job.app.Some?
      modifies this, job
      ensures Ok() && old(trace) <= trace
      ensures (pc.Down? && job == null)
              || (job == old(job) && job.app == old(job.app) && pc == if ok then Compiled else Failed)
      ensures pc.Down? <==> !JobCanSave(Landed(old(View()), CallsAt(env, 0)))
      ensures ok <==> !pc.Down? && env.compileOk
      ensures Spared(env, old(job.app).value.id) && JobCanSave(old(View())) ==> JobCanSave(View())
    {
      ghost var id := job.app.value.id;
      InterfereSpared(CallsAt(env, 0), id);
      ok := AdvanceStatus(Provisioning);
      if ok {
        ok := CompileStage(env);
      }
    }

    /** The writes of running and started_at. */
    method MarkRunning(env: Env) returns (ok: bool)
      requires Ok() && pc.Compiled? && job != null && job.app.Some?
      modifies this, job
      ensures Ok() && old(trace) <= trace
      ensures (pc.Down? && job == null && !ok)
              || (job == old(job) && job.app == old(job.app) && pc == if ok then Launching else Failed)
      ensures pc.Down? <==> !JobCanSave(old(View()))
      ensures Spared(env, old(job.app).value.id) && JobCanSave(old(View())) ==> ok && JobCanSave(View())
    {
      ghost var id := job.app.value.id;
      ok := AdvanceStatus(Running);
      if ok {
        InterfereSpared(CallsAt(env, 3), id);
        ok := StampStart(env.now);
      }
    }

    /** The second half of run: running and started_at are written and the job is run. */
    method Execute(env: Env) returns (ok: bool)
      requires Ok() && pc.Compiled? && job != null && job.app.Some?
      modifies this, job
      ensures Ok() && old(trace) <= trace
      ensures (pc.Down? && job == null)
              || (job == old(job) && job.app == old(job.app) && pc == if ok then Final(Finished) else Failed)
      ensures pc == Final(Finished) ==> AllReturned(exec, old(job.app).value.vus)
      ensures pc.Down? <==> !JobCanSave(Landed(old(View()), CallsAt(env, 2)))
      ensures ok ==> env.launchOk && env.startOk && env.exitOk
                     && Reached(FJ.Begin(old(job.app).value.vus), env.threads).main.Sent?
      ensures Spared(env, old(job.app).value.id) && JobCanSave(old(View())) ==>
                !pc.Down? && JobCanSave(View())
                && (ok <==> env.launchOk && env.startOk && env.exitOk
                            && Reached(FJ.Begin(old(job.app).value.vus), env.threads).main.Sent?)
    {
      ghost var id := job.app.value.id;
      InterfereSpared(CallsAt(env, 2), id);
      ok := MarkRunning(env);
      if ok {
        InterfereSpared(CallsAt(env, 4), id);
        ok := RunJob(env);
      }
    }

    /** The body of run up to its return, deferred block excepted. */
    method Stages(env: Env) returns (ok: bool)
      requires Ok() && pc.Assigned? && job != null && job.app.Some?
      modifies this, job
      ensures Ok() && old(trace) <= trace
      ensures (pc.Down? && job == null)
              || (job == old(job) && job.app == old(job.app) && pc == if ok then Final(Finished) else Failed)
      ensures pc == Final(Finished) ==>
                AllStagesOk(env, old(job.app).value.vus) && AllReturned(exec, old(job.app).value.vus)
      ensures Spared(env, old(job.app).value.id) && JobCanSave(old(View())) ==>
                !pc.Down? && JobCanSave(View()) && (ok <==> AllStagesOk(env, old(job.app).value.vus))
    {
      ok := Provision(env);
      if ok {
        ok := Execute(env);
      }
    }

    /** The deferred block, after a last chance for clients. */
    method Conclude(env: Env, failed: bool) returns (err: Option<RunError>)
      requires Ok() && job != null && job.app.Some? && pc == if failed then Failed else Final(Finished)
      modifies `rows, `nextId, `clock, `pc, `writes, `runs, `trace, job
      ensures Ok() && old(trace) <= trace && pc.Asleep?
      ensures HasRow(View(), old(job.app).value.id, Verdict(err)) && (err.None? <==> !failed)
      ensures Spared(env, old(job.app).value.id) && JobCanSave(old(View())) && failed ==> err == Some(RunFailed)
    {
      InterfereSpared(CallsAt(env, 5), job.app.value.id);
      err := Deferred(failed);
    }

    /**
     run, with whatever clients call meanwhile.  If it returns at all, the row has
     the status its error stands for, and no error means that all stages went well
     and the executor has joined every user of the scenario.  If nobody cancels or
     deletes the application, run does return, without an error exactly if all
     stages go well.
     */
    method Run(env: Env) returns (err: Option<RunError>)
      requires Ok() && pc.Assigned? && job != null && job.app.Some?
      modifies this, job
      ensures Ok() && old(trace) <= trace && (pc.Asleep? || pc.Down?)
      ensures pc.Asleep? ==> HasRow(View(), old(job.app).value.id, Verdict(err))
      ensures pc.Asleep? && err.None? ==>
                AllStagesOk(env, old(job.app).value.vus) && AllReturned(exec, old(job.app).value.vus)
      ensures Spared(env, old(job.app).value.id) && JobCanSave(old(View())) ==>
                pc.Asleep? && err == if AllStagesOk(env, old(job.app).value.vus) then None else Some(RunFailed)
    {
      err := None;
      var ok := Stages(env);
      if job != null {
        err := Conclude(env, !ok);
      }
    }

    /** The first half of a round of the scheduling loop: the query. */
    method PickNext() returns (next: Option<App>)
      requires Ok() && pc.Asleep?
      modifies `pc, `picks, `trace
      ensures Ok() && trace == old(trace) + if next.None? then [] else [Pick(next.value.id)]
      ensures next.None? <==> PendingRows(old(View())) == {}
      ensures next.Some? ==> OldestPending(old(View()), next.value.id) && next.value.vus == rows[next.value.id].vus
      ensures pc == if next.None? then Asleep else Picked(next.value)
      ensures next.None? ==> View() == old(View())
    {
      next := NextApplication();
      if next.Some? {
        pc := Picked(next.value);
        picks := picks + [rows[next.value.id].createdAt];
        Record(Pick(next.value.id));
      }
    }

    /** A new job struct with its own context becomes the master's current job. */
    method AssignJob(app: App)
      requires Ok() && pc == Picked(app)
      modifies this
      ensures Ok() && trace == old(trace) + [Assign] && pc.Assigned?
      ensures job != null && fresh(job) && job.app == Some(app) && !job.cancelled
    {
      job := new RunningJob(app);
      pc, exec, writes := Assigned, None, [];
      Record(Assign);
    }

    method SkipJob()
      requires Ok() && pc.Picked?
      modifies `pc, `trace
      ensures Ok() && trace == old(trace) + [LogsFail] && pc.Asleep?
    {
      pc := Asleep;
      Record(LogsFail);
    }

    /** Some calls, and the job of the application that was picked. */
    method TakeUp(env: Env, app: App)
      requires Ok() && pc == Picked(app)
      modifies this, job
      ensures Ok() && old(trace) <= trace && pc.Assigned?
      ensures job != null && fresh(job) && job.app == Some(app) && !job.cancelled
      ensures Spared(env, app.id) && app.id in old(rows) ==> JobCanSave(View())
    {
      if Spares(CallsAt(env, 6), app.id) && app.id in rows {
        RunKeepsInv(trace);
        RunKeepsAtomicInv(trace);
        SparedIsLeft(View(), CallsAt(env, 6), app.id);
      }
      Interference(CallsAt(env, 6));
      AssignJob(app);
    }

    /**
     One round of the scheduling loop, until the next sleep or the end of the
     process.  An oldest pending application is picked, if there is any; if nobody
     cancels or deletes it, it ends finished exactly if all stages go well, and
     errored otherwise.
     */
    method ScheduleOnce(env: Env, logsOk: bool) returns (next: Option<App>, err: Option<RunError>)
      requires Ok() && pc.Asleep?
      modifies this, job
      ensures Ok() && old(trace) <= trace && (pc.Asleep? || pc.Down?)
      ensures next.None? <==> PendingRows(old(View())) == {}
      ensures next.None? ==> View() == old(View())
      ensures next.Some? ==> OldestPending(old(View()), next.value.id)
                             && next.value.vus == old(rows)[next.value.id].vus
      ensures next.Some? && logsOk && pc.Asleep? ==> HasRow(View(), next.value.id, Verdict(err))
      ensures next.Some? && logsOk && Spared(env, next.value.id) ==>
                && pc.Asleep? && err == (if AllStagesOk(env, next.value.vus) then None else Some(RunFailed))
                && HasRow(View(), next.value.id, if AllStagesOk(env, next.value.vus) then Finished else Errored)
      ensures next.Some? && !logsOk ==> pc.Asleep? && err.None?
    {
      err := None;
      next := PickNext();
      if next.Some? {
        if logsOk {
          TakeUp(env, next.value);
          err := Run(env);
        } else {
          Interference(CallsAt(env, 6));
          SkipJob();
        }
      }
    }
  }
}
