/**
 What the steps of the job protocol leave alone, written out field by field: a
 Cancel or Delete touches the row it is about, the scheduler the row of its
 current job, and neither touches what belongs to the other.
 */
module JobFrames {
  import opened Wrappers
  import FJ = ForkJoin
  import opened Jobs
  import opened JobSafety

  /** The same rows, except that row id may have another status. */
  predicate OnlyStatusOf(s: State, s': State, id: int) {
    && s'.rows.Keys == s.rows.Keys
    && (forall other | other in s.rows && other != id :: s'.rows[other] == s.rows[other])
    && (id in s.rows ==>
          && s'.rows[id].createdAt == s.rows[id].createdAt && s'.rows[id].startedAt == s.rows[id].startedAt
          && s'.rows[id].vus == s.rows[id].vus)
  }

  /** The same rows, except that row id may be gone. */
  predicate OnlyGone(s: State, s': State, id: int) {
    && (forall other | other in s'.rows :: other in s.rows && s'.rows[other] == s.rows[other])
    && (forall other | other in s.rows && other != id :: other in s'.rows)
  }

  /** Nothing of the scheduler thread, the executor or the counters has changed. */
  predicate SchedulerAlone(s: State, s': State) {
    && s'.pc == s.pc && s'.exec == s.exec && s'.writes == s.writes && s'.runs == s.runs && s'.picks == s.picks
    && s'.nextId == s.nextId && s'.clock == s.clock
  }

  /** The job is the same, except that it may have been cancelled if it is that of id. */
  predicate OnlyCancelled(s: State, s': State, id: int) {
    && s'.job.Some? == s.job.Some?
    && (s.job.Some? ==>
          && s'.job.value.app == s.job.value.app
          && s'.job.value.cancelled == (s.job.value.cancelled || CurrentJob(s, id)))
  }

  predicate Live(st: Status) {
    st == Pending || st == Provisioning || st == Running
  }

  /**
   A whole Cancel: the row keys stay, every other row stays as it is, the row
   becomes cancelled exactly if it is live and not the current job's, and the
   current job is signalled exactly if it is that of the row.
   */
  lemma CancelTouchesOnly(s: State, id: int)
    requires Enabled(s, Cancel(id)) && !JobLostItsApp(s)
    ensures var s' := Apply(s, Cancel(id));
            && OnlyStatusOf(s, s', id) && SchedulerAlone(s, s') && s'.clients == s.clients
            && OnlyCancelled(s, s', id)
            && (id in s.rows ==>
                  s'.rows[id].status ==
                  if Live(s.rows[id].status) && !CurrentJob(s, id) then Canceled else s.rows[id].status)
  {
  }

  /** With a job that has lost its app the caller panics before it has touched anything. */
  lemma PanickingCancelTouchesNothing(s: State, id: int, c: nat)
    requires JobLostItsApp(s) && !s.pc.Down? && c !in s.clients
    ensures Apply(s, Cancel(id)) == s && Apply(s, CancelCall(c, id)) == s
  {
  }

  /** A whole Delete: the row is gone exactly if its status is one of the four, and nothing else has changed. */
  lemma DeleteTouchesOnly(s: State, id: int)
    requires Enabled(s, Delete(id))
    ensures var s' := Apply(s, Delete(id));
            && OnlyGone(s, s', id) && SchedulerAlone(s, s') && s'.clients == s.clients && s'.job == s.job
            && (id in s.rows ==>
                  (id !in s'.rows <==> s.rows[id].status in {Pending, Canceled, Finished, Errored}))
  {
  }

  /** The first step of a Cancel or Delete call only enters the call among those under way. */
  lemma CallTouchesOnly(s: State, a: Action)
    requires Enabled(s, a) && (a.CancelCall? || a.DeleteCall?)
    ensures var s' := Apply(s, a);
            && s'.rows == s.rows && s'.job == s.job && SchedulerAlone(s, s')
            && s'.clients - {a.client} == s.clients
  {
    assert s.clients - {a.client} == s.clients;
  }

  /** A later step of a Cancel call: the row may become cancelled, or the current job be signalled. */
  lemma CancelStepTouchesOnly(s: State, c: nat)
    requires c in s.clients && !s.clients[c].Deleting?
    ensures var s' := Apply(s, Resume(c));
            && SchedulerAlone(s, s') && s'.clients - {c} == s.clients - {c}
            && (match s.clients[c]
                case Signalling =>
                  && s'.rows == s.rows && s'.job.Some? == s.job.Some?
                  && (s.job.Some? ==> s'.job.value.app == s.job.value.app && s'.job.value.cancelled)
                case Looking(id) =>
                  && s'.rows == s.rows && s'.job == s.job
                  && (c in s'.clients <==> id in s.rows && Live(s.rows[id].status))
                case Canceling(id) =>
                  && s'.job == s.job && OnlyStatusOf(s, s', id)
                  && (id in s.rows ==> s'.rows[id].status == Canceled)
                case Deleting(_) => true)
  {
    assert s.clients[c := s.clients[c]] == s.clients;
  }

  /** The second step of a Delete call takes away its row and nothing else. */
  lemma DeleteStepTouchesOnly(s: State, c: nat)
    requires c in s.clients && s.clients[c].Deleting?
    ensures var s' := Apply(s, Resume(c));
            && SchedulerAlone(s, s') && s'.job == s.job && s'.clients == s.clients - {c}
            && OnlyGone(s, s', s.clients[c].id) && s.clients[c].id !in s'.rows
  {
  }

  /** The row of the application that the scheduler thread is dealing with. */
  predicate SchedulersRow(s: State, id: int) {
    InRun(s.pc) && CurrentJob(s, id)
  }

  predicate OtherRowsSame(s: State, s': State) {
    && s'.rows.Keys == s.rows.Keys
    && forall id | id in s.rows && !SchedulersRow(s, id) :: s'.rows[id] == s.rows[id]
  }

  /** What a run may change of its own row: the status, and started_at at the one write that is about it. */
  predicate OwnRowStep(s: State, s': State, a: Action) {
    forall id | id in s.rows && id in s'.rows && SchedulersRow(s, id) ::
      && s'.rows[id].createdAt == s.rows[id].createdAt && s'.rows[id].vus == s.rows[id].vus
      && (s'.rows[id].status == s.rows[id].status || a.WriteProvisioning? || a.WriteRunning? || a.WriteVerdict?)
      && s'.rows[id].startedAt ==
         (if a.WriteStartedAt? && JobCanSave(s) then Some(a.at) else s.rows[id].startedAt)
  }

  /**
   A step of the scheduler, the agent or the executor: no row comes or goes, only
   the row of the current job can change, and no client is touched while the
   process stays up.
   */
  lemma SchedulerTouchesOnly(s: State, a: Action)
    requires JobOk(s) && Enabled(s, a) && !ByClient(a) && !a.Crash? && !a.Boot?
    ensures var s' := Apply(s, a);
            && OtherRowsSame(s, s') && OwnRowStep(s, s', a)
            && s'.nextId == s.nextId && s'.clock == s.clock
            && (!s'.pc.Down? ==> s'.clients == s.clients)
  {
  }

  /** What the writes of a run write, when they do. */
  lemma WritesWrite(s: State, id: int)
    requires JobOk(s) && CurrentJob(s, id) && id in s.rows
    ensures s.pc.Assigned? && !JobCancelled(s) ==> HasRow(Apply(s, WriteProvisioning), id, Provisioning)
    ensures s.pc.Compiled? && !JobCancelled(s) ==> HasRow(Apply(s, WriteRunning), id, Running)
    ensures s.pc.Final? ==> HasRow(Apply(s, WriteVerdict), id, s.pc.verdict)
    ensures s.pc.Failed? ==> Apply(s, Decide).pc == Final(if JobCancelled(s) then Canceled else Errored)
    ensures s.pc.Draining? ==> Apply(s, Exit(true)).pc == Final(Finished) && Apply(s, Exit(false)).pc == Failed
  {
  }

  /** The history of picks: every Pick, and nothing else, adds the creation time of the row it picks. */
  lemma PicksAreRecorded(s: State, a: Action)
    requires Enabled(s, a)
    ensures Apply(s, a).picks == s.picks + if a.Pick? then [s.rows[a.id].createdAt] else []
  {
  }

  /** The write succeeds, and this is the status it writes. */
  predicate WriteSucceeds(s: State, a: Action, st: Status) {
    || (a.WriteProvisioning? && st == Provisioning && JobCanSave(s))
    || (a.WriteRunning? && st == Running && JobCanSave(s))
    || (a.WriteVerdict? && s.pc == Final(st) && s.job.Some? && s.job.value.app.Some?
        && s.job.value.app.value.id in s.rows)
  }

  /**
   The history of writes: a write of a status that succeeds is recorded in the
   current run, the last one closes it, an assignment starts an empty one, and
   nothing else touches the record while the process stays up.
   */
  lemma WritesAreRecorded(s: State, a: Action, st: Status)
    requires JobOk(s) && Enabled(s, a)
    ensures WriteSucceeds(s, a, st) && !a.WriteVerdict? ==>
              Apply(s, a).writes == s.writes + [st] && Apply(s, a).runs == s.runs
    ensures WriteSucceeds(s, a, st) && a.WriteVerdict? ==> Apply(s, a).runs == s.runs + [s.writes + [st]]
    ensures a.Assign? ==> Apply(s, a).writes == [] && Apply(s, a).runs == s.runs
    ensures !a.WriteProvisioning? && !a.WriteRunning? && !a.WriteVerdict? && !a.Assign? && !a.Crash? ==>
              Apply(s, a).writes == s.writes && Apply(s, a).runs == s.runs
    ensures s.runs <= Apply(s, a).runs
  {
  }

  /** A crash changes no row and forgets the job, the executor and all calls under way. */
  lemma CrashTouchesOnly(s: State)
    requires Enabled(s, Crash)
    ensures var s' := Apply(s, Crash);
            && s'.rows == s.rows && s'.nextId == s.nextId && s'.clock == s.clock && s'.runs == s.runs
            && s'.picks == s.picks && s'.pc.Down? && s'.job.None? && s'.exec.None? && s'.clients == map[]
  {
  }

  // ---------- Calls that land while the scheduler is between two steps ----------

  /** A whole call that can be made. */
  predicate Callable(s: State, a: Action) {
    ByClient(a) && Atomic(a) && Enabled(s, a)
  }

  function Landed(s: State, calls: seq<Action>): State {
    if calls == [] then s
    else
      var before := Landed(s, calls[..|calls| - 1]);
      if Callable(before, calls[|calls| - 1]) then Apply(before, calls[|calls| - 1]) else before
  }

  /** None of the calls is about this row. */
  predicate Spares(calls: seq<Action>, id: int) {
    forall a | a in calls :: a != Cancel(id) && a != Delete(id)
  }

  /** Calls that spare a row leave it there, in its status unless it is new, and leave its job alone. */
  lemma {:induction false} SparedIsLeft(s: State, calls: seq<Action>, id: int)
    requires Spares(calls, id) && id in s.rows && id < s.nextId && !JobLostItsApp(s)
    ensures var s' := Landed(s, calls);
            && id in s'.rows && s'.rows[id] == s.rows[id] && s.nextId <= s'.nextId && s'.pc == s.pc
            && (CurrentJob(s, id) ==> s'.job == s.job) && !JobLostItsApp(s')
  {
    if calls != [] {
      var n := |calls| - 1;
      assert forall a | a in calls[..n] :: a in calls;
      SparedIsLeft(s, calls[..n], id);
      assert calls[n] in calls;
    }
  }
}
