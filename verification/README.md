# Verified model of gobench

gobench is a load-test master: it queues applications in a database, compiles
and runs them one at a time through an agent and an executor process, and
collects the executor's metrics. This project models the three parts of it
that carry hard properties, and proves these properties with Dafny 4.11.
`dafny verify dfyconfig.toml` checks the whole project.

**The job protocol.** `ForkJoin.dfy` is the executor's `runScen`: one spawner
per class of virtual users, the users, and the WaitGroup that joins them.
`Jobs.dfy` puts the master's scheduler thread, the agent, that executor, the
applications table, crashes and boots, and any number of concurrent clients
into one transition system, at two grains: Cancel and Delete as whole calls,
and the same calls one database access at a time. `JobSafety.dfy` holds the
inductive invariants, `JobFrames.dfy` what every step leaves alone, `JobTheorems.dfy` the properties of all runs,
`JobLiveness.dfy` the draining of the queue over infinite schedules. In
`Master.dfy` the master's own methods update their fields in place; each is
proved to be one or more actions of the transition system, so that the
theorems about runs hold of the fields between any two calls.

**The metric catalogue and registry.** `Catalogue.dfy` has the three
find-or-create tables and the declared tree, `Registry.dfy` the instruments
and what one `Setup` registers, `Metering.dfy` the machine in which `Setup`,
`Notify` and the periodic report interleave, `Executor.dfy` the executor's
loops, proved to be steps of that machine. `Int64.dfy` is Go's wrap-around
addition.

**The ent data layer.** `EagerLoad.dfy` is `sqlAll` of the Metric query,
`Mutation.dfy` the mutation objects and `sqlSave` of the Metric update,
`BulkCreate.dfy` the bulk creation of applications.

## Main results

- *Completion.* A row becomes finished only after every virtual user of its
  scenario has returned. This is true of a scenario, in every run of the whole
  protocol, if and only if the WaitGroup is not told of fewer users than the
  scenario has, or panics on what it is told
  (`JobTheorems.FinishedCanBeTrustedIff`). What it is told is the sum of the
  classes, wrapped around at 64 bits and cut to the counter's 32, so that
  negative classes and huge ones can bring it to zero early;
  `JobTheorems.PrematurelyFinished` gives the run, and
  `ForkJoin.OverflowingScenarios` such scenarios. A scenario can be finished at
  all if and only if what the WaitGroup is told is neither negative nor more
  than the number of users (`JobTheorems.CanFinishIff`).
- *The table.* At most one row is running under every interleaving. The current
  job's row holds what the scheduler wrote last, at every point of a run, if and
  only if no Cancel or Delete call that had looked before writes to it meanwhile
  (`JobTheorems.AgreesThroughoutIff`).
- *Terminal statuses* can be lost, over all interleavings, if and only if one of
  three things holds of the state: the row was picked and provisioning is still
  to be written, a Cancel call that had looked before is still to write, or the
  row's own run goes on behind a Cancel (`JobTheorems.TerminalOverwrittenIff`).
  With whole calls only the first remains (`JobTheorems.WholeCallsOverwriteIff`).
- *Draining.* Whatever Cancel and Delete calls do, whole or step by step, every
  infinite schedule without arrivals that goes on moving empties the queue, from
  any reachable state, and all rows pending at its start are terminal or deleted
  (`JobLiveness.QueueDrains`). There is such a schedule if and only if the process
  is up, the next write does not fail and the application just picked is still
  there (`JobLiveness.ScheduleExistsIff`).
- *Finishing.* On every schedule on which nothing fails and nobody cancels or
  deletes, all pending applications finish (`JobLiveness.AllFinish`), and there is
  such a schedule if and only if the WaitGroup of every pending application's
  scenario can be brought to zero (`JobLiveness.SmoothExistsIff`).
- *A round of the scheduler*, run by the code, finishes the application it picks
  exactly if every stage goes well, as long as nobody cancels or deletes it
  (`MasterCode.Master.ScheduleOnce`).
- *Coming down.* Without any crash from outside, the scheduler thread can take the
  whole master down if and only if the application just picked is gone, or the
  row or the context is gone that the writes of provisioning and running still
  need (`JobLiveness.ComesDownIff`); a Cancel before the running write does just
  that (`JobLiveness.CancelBringsDown`).
- *FIFO, crash recovery, the WaitGroup's exactness and progress* are stated over
  all runs.
- *The catalogue* holds exactly the declared paths, once each, after any
  sequence of complete or failing `Setup` calls of any applications; bindings
  are stable; every stored row reports, at the time of its report, all the values
  notified for its title since the title was bound
  (`Metering.StoredRowsReportCalls`), so that later rows account for more. The rows of a counter of non-negative values never go down,
  in any run, if and only if their sum fits in 63 bits
  (`Metering.RowsNeverFallIff`).
- *Eager loading* computes the relational join, if and only if no limit on an
  edge's query is below the number of rows asked for
  (`EagerLoad.SharesAreJoinIff`, `EagerLoad.LinksAreLookupIff`), *update specs* mean what the
  calls on the mutation intended, and *bulk creation* is all or nothing.

## Where the code and its comments differ

- The comment above `CleanupRunningApps` (master/master.go:124-125) says that a
  running row becomes error; the code writes cancel, and so does the model.
- The comment above `CancelApplication` (master/master.go:204-208) promises
  `ErrAppIsFinished` for a finished or errored application. In any state it
  comes if and only if the application is not the one `m.job` still
  points to and `m.job` has not lost its app
  (`MasterCode.CancelKeepsItsPromiseIff`). `m.job` is never reset, so the last job
  is answered with its row instead (`MasterCode.PromiseIsBroken`); and after a run
  whose row was deleted by a Delete call that had looked before, every caller
  panics on the nil app (`MasterCode.PromiseIsBrokenByDelete`).
- A `Setup` that fails half-way has registered instruments whose units it
  drops; these titles, and no others, can never be notified afterwards
  (`Metering.FailedSetupLoses`).

## Assumptions

- A write through a live context to a row that exists succeeds; one through a
  cancelled context, or to a row that is gone, fails. A failing `setStatus`
  leaves `j.app` nil and the deferred block's use of `m.job.app.ID` ends the
  process; it is a crash step.
- Boot is atomic: the scheduler's first sleep orders it after
  `CleanupRunningApps`. Row ids are never given out twice. `created_at` is
  taken from a clock that does not go back, and creation is atomic.
- `Launch`, `StartReturns` and `Exit` may fail at any time for any reason; `Launch`
  succeeds only under a live context, which the command refuses to start without.
  Under a context cancelled since then `StartReturns` and `Exit` may still succeed:
  the call's return and the process's exit race with the cancellation and the kill.
  `Start` returns nil only after nil was sent on `finished`. A virtual user's
  return and its `wg.Done()` are one step.
- Go's `int` has 64 bits, and `sync.WaitGroup` keeps a counter of 32 bits, so
  that `wg.Add` counts the low 32 bits of its argument and panics if they are
  negative. The theorems of `ForkJoin.dfy` hold of whatever number `told` the
  counter gets, so that only `ForkJoin.Told` depends on this width. The number of
  users of a class is any integer, those of 64 bits among them.
- `First` without an order yields the row at the lowest position; with the
  uniqueness proved here there is only one. A call to the master that fails
  inserts nothing. In `Setup` the requested application is the current job's,
  whose id the generated executor is compiled with (executor/generator.go:45);
  `Catalogue.SetupHasNoTwinsIff` and `Catalogue.RepeatedSetupHasNoTwinsIff` say
  what happens otherwise.
- One process has one executor. The report of one unit is one atomic step, and
  the units reported are those present at the cue.
- All defaults of one bulk creation use the same time. Hooks pass through. Why
  the database refuses a batch, be it a lost connection or a child that two
  builders want to attach, is not followed: it refuses whichever it is told to,
  as a whole.

## Model

| member | source | states |
|---|---|---|
| `ForkJoin.TotalVu` | executor/executor.go:168-174 | the loop computes the sum of the classes, wrapped around at 64 bits |
| `ForkJoin.RunKeepsInv` | executor/executor.go:168-193 | whatever the counter gets, the fork/join invariant holds after every interleaving of main goroutine, spawners and users |
| `ForkJoin.JoinIsExact` | executor/executor.go:176-192 | when the WaitGroup is told the number of users, its counter is at every point the number of users not finished, never negative, finished users were spawned, and nil is sent only when all declared users have finished |
| `ForkJoin.StartedOnce` | executor/executor.go:181-187 | no two steps of a run start the same virtual user |
| `ForkJoin.UsersCount` | executor/executor.go:171-174 | the sum of the classes is at most the number of declared users, and equal to it if and only if no class is negative |
| `ForkJoin.CountedIff` | executor/executor.go:171-177 | as long as the sum fits in the counter, the WaitGroup is told the number of users if and only if no class is negative |
| `ForkJoin.OverflowingScenarios` | executor/executor.go:171-177 | scenarios without negative classes whose sum wraps around to one user, and one whose wrapped sum panics |
| `ForkJoin.SafeJoin` | executor/executor.go:191-192 | past the join of a scenario that passes the check, exactly the declared users have finished |
| `ForkJoin.PrematureJoin` | executor/executor.go:171-192 | any scenario that fails the check has a run that sends nil with a declared user still to come |
| `ForkJoin.JoinCanBeTrustedIff` | executor/executor.go:168-193 | nil means in all interleavings that all users returned if and only if the counter gets a negative number or at least the number of users |
| `ForkJoin.JoinCanHappenIff` | executor/executor.go:176-192 | some interleaving sends nil if and only if the counter gets a number between zero and the number of users |
| `ForkJoin.SentWasTold` | executor/executor.go:191-192 | nil is sent only where the counter got a number between zero and the number of users |
| `ForkJoin.LeadToNil` | executor/executor.go:176-192 | every run from which nil can still be sent goes on to it, with exactly as many users finished as were told |
| `ForkJoin.StepDoesWork` | executor/executor.go:176-192 | every goroutine step takes exactly one off a bound on the steps left |
| `ForkJoin.NeverStuck` | executor/executor.go:176-192 | as long as nil can still be sent some goroutine can take a step after which it still can |
| `JobSafety.RunKeepsInv` | master/master.go:332-432 | rows, current job, executor, writes, traces and picks stay consistent after every run, under every interleaving of Cancel and Delete steps |
| `JobSafety.RunKeepsAtomicInv` | master/master.go:361-418 | with whole Cancel and Delete calls the job never loses its app and its row agrees with the last write |
| `JobSafety.PendingIsOnlyCreated` | master/master.go:168-181 | no step but a creation makes a row pending, and none changes the creation time of a pending row |
| `JobSafety.StepKeepsAgreementIff` | master/master.go:184-250 | a step from agreement of scheduler and table leads to agreement if and only if it is not the late write of a Cancel or Delete call to the job's row |
| `JobFrames.CancelTouchesOnly` | master/master.go:229-249 | a whole Cancel changes at most the status of its own row, which becomes cancelled exactly if it is live and not the current job's, and signals the current job exactly if it is that of the row |
| `JobFrames.DeleteTouchesOnly` | master/master.go:194-201 | a whole Delete takes away at most its own row, exactly if the status is pending, cancel, finished or error |
| `JobFrames.CallTouchesOnly` | master/master.go:184-197 | the first step of a Cancel or Delete call changes no row and no job |
| `JobFrames.CancelStepTouchesOnly` | master/master.go:229-249 | a later step of a Cancel call changes at most the status of its own row, or signals the current job |
| `JobFrames.DeleteStepTouchesOnly` | master/master.go:199-201 | the last step of a Delete call takes away its own row and nothing else |
| `JobFrames.SchedulerTouchesOnly` | master/master.go:332-418 | a step of scheduler, agent or executor changes no row but the current job's, and of that the status at the three writes and started_at at the one write about it |
| `JobFrames.WritesWrite` | master/master.go:368-404 | the writes of a run write provisioning, running and the verdict, which is cancel for a cancelled and error for any other failed run |
| `JobFrames.WritesAreRecorded` | master/master.go:368-404 | the record of a run's writes holds exactly the statuses whose writes succeeded, in their order |
| `JobFrames.PicksAreRecorded` | master/master.go:338-345 | the record of picks holds exactly the creation times of the rows picked |
| `JobFrames.CrashTouchesOnly` | master/master.go:126-141 | a crash changes no row and forgets job, executor and calls under way |
| `JobFrames.SparedIsLeft` | master/master.go:184-250 | calls that neither cancel nor delete an application leave its row and its job as they are |
| `JobTheorems.FinishedMeansJoined` | master/master.go:361-418 | whenever a row becomes finished, the executor has served that row's scenario and sent nil, and all users of a safe scenario have returned |
| `JobTheorems.FinishedCanBeTrustedIff` | agent/agent.go:100-167 | finished implies in every run that all users returned if and only if wg.Add does not get fewer users than there are, or panics |
| `JobTheorems.CanFinishIff` | agent/agent.go:150-166 | some run finishes the scenario if and only if wg.Add gets a number between zero and the number of users |
| `JobTheorems.AgreesThroughoutIff` | master/master.go:390-413 | the job's row exists and holds the scheduler's last write at every point of a run if and only if no Cancel or Delete call that looked before writes to it meanwhile |
| `JobTheorems.StepLosesAppIff` | master/master.go:595-602 | the job loses its app exactly by the last write of a run whose row is gone |
| `JobTheorems.UninterruptedKeepsApp` | master/master.go:421-432 | unless a Cancel or Delete call that looked before writes to the job's row, m.job never loses its app, so that no caller of Cancel panics |
| `JobTheorems.EmbedExecutor` | executor/rpc_server.go:11-27 | every run of the executor's goroutines is part of a run of the whole protocol |
| `JobTheorems.PrematurelyFinished` | executor/executor.go:135-166 | every scenario that fails the check has a run of the whole protocol in which it is reported finished with users still to come |
| `JobTheorems.AtMostOneRunning` | master/master.go:332-359 | under all interleavings at most one row is running, and while the process is up it is the current job's |
| `JobTheorems.SchedulerAgreesWithTable` | master/master.go:390-413 | with whole Cancel and Delete calls the job's row exists and holds the scheduler's last write, from provisioning to the verdict |
| `JobTheorems.RunsAreLegal` | master/master.go:368-417 | a completed run writes provisioning, perhaps running, then one terminal status, and finished only after running |
| `JobTheorems.PicksAreFifo` | master/master.go:441-454 | creation times of picked applications never decrease over a whole run, crashes included |
| `JobTheorems.LaterPickIsYounger` | master/master.go:441-454 | of two picks in a run the later one is of an application created no earlier |
| `JobTheorems.RunKeepsSettled` | master/master.go:361-432 | a terminal row that is not endangered keeps its status through every further run, under all interleavings |
| `JobTheorems.TerminalOverwrittenIff` | master/master.go:209-250 | in every reachable state a terminal row can lose its status if and only if it was picked and not yet written, or is not cancelled and a Cancel is still to write, or its own run can still write something else |
| `JobTheorems.WholeCallsOverwriteIff` | master/master.go:338-391 | with whole calls before and after, it can if and only if it was picked and provisioning is still to be written |
| `JobTheorems.CancelledWhilePicked` | master/master.go:338-391 | a run of whole calls leads to a cancelled row that will be overwritten |
| `JobTheorems.StaleCancelOverwritesFinished` | master/master.go:229-249 | a Cancel that looked at a pending row turns it from finished to cancelled after its run |
| `JobTheorems.DeletedWhileRun` | master/master.go:184-202 | a Delete that looked at a pending row deletes it before the last write of its run, which leaves the job without an app |
| `JobTheorems.FinishedStaysCurrent` | master/master.go:353-357 | a run of whole calls ends with a finished row that is still the current job's |
| `JobTheorems.CrashRecovery` | master/master.go:126-141 | crash and boot from any reachable state leave no running row, change no other row and re-establish the invariants with no current job |
| `JobTheorems.ProvisioningIsNeverRerun` | master/master.go:441-454 | a row left in provisioning by a crash keeps that status and is never picked, through all further runs without a Cancel of it |
| `JobTheorems.CancelIsItsSteps` | master/master.go:209-250 | the whole Cancel call has the effect of its steps taken without interruption |
| `JobTheorems.DeleteIsItsSteps` | master/master.go:184-202 | the whole Delete call has the effect of its steps taken without interruption |
| `JobTheorems.InterruptedCancelIsUndone` | master/master.go:229-249 | an interrupted Cancel has a run in which the cancelled row of the job being provisioned becomes running |
| `JobLiveness.QueueDrains` | master/master.go:332-418 | from every reachable state, every schedule without arrivals, with any Cancel and Delete steps, reaches a point where all rows that were pending are terminal or deleted |
| `JobLiveness.MoveShrinksTodo` | master/master.go:390-391 | no scheduler step adds an application to do and the provisioning write removes one, cancelled since or not |
| `JobLiveness.HasAMoveIff` | master/master.go:332-418 | there is a next step that gets on if and only if the process is up, the queue is not drained and the next write does not fail |
| `JobLiveness.ServingHasAMove` | executor/executor.go:176-192 | while the executor serves and can still join, it has a step of its own |
| `JobLiveness.CancelBringsDown` | master/master.go:421-432 | a Cancel of the current job before the running write lets the master come down, and next to one of the two writes it leaves no other way |
| `JobLiveness.ComesDownIff` | master/master.go:368-404 | with neither client nor outside crash the master can come down from a reachable state if and only if the picked row is gone, or the row or context that a write before the executor's start needs |
| `JobLiveness.ScheduleExistsIff` | master/master.go:332-418 | from a reachable state there is an infinite schedule that goes on moving until the queue is drained if and only if the process is up, the next write does not fail and the picked row is there |
| `JobLiveness.AllFinish` | master/master.go:332-418 | on every schedule without failures, Cancels and Deletes all rows pending at the head of the loop are finished in the end, and their scenarios could join |
| `JobLiveness.SmoothExistsIff` | master/master.go:332-418 | there is such a schedule if and only if every pending row's scenario can join |
| `JobLiveness.MoveLowersRank` | master/master.go:361-418 | every other scheduler step gets nearer to the end of its round |
| `JobLiveness.ExecutorLowersWork` | executor/executor.go:168-193 | every executor step leaves the executor less to do |
| `JobLiveness.FallsToTheEnd` | master/master.go:332-418 | a measure that never rises and falls again and again reaches a drained queue |
| `JobLiveness.ScheduleFalls` | master/master.go:332-418 | the lexicographic measure of applications to do, stages and executor steps falls at every move and is not raised by any Cancel or Delete step |
| `MasterCode.FinishedRunJoined` | agent/agent.go:150-166 | when the verdict finished is about to be written the executor has served the job's scenario and joined it |
| `MasterCode.VerdictFindsTheRow` | master/master.go:385-387 | the deferred write finds the job's row in every run with whole Cancel and Delete calls |
| `MasterCode.VerdictsAre` | master/master.go:368-383 | no error, ErrAppIsCanceled and any other error stand for finished, cancel and error |
| `MasterCode.CancelKeepsItsPromiseIff` | master/master.go:204-250 | in any state ErrAppIsFinished comes for a finished or errored row if and only if it is not the last job's and that job has its app; a panic comes exactly if it has lost it; otherwise a cancelled row is answered with itself and a live row of another job becomes cancelled |
| `MasterCode.CancelOfNothing` | master/master.go:229-236 | for an id without a row the caller gets NotFound and no row changes |
| `MasterCode.UninterruptedPromiseIff` | master/master.go:204-250 | in every run without late writes to the current job's row, ErrAppIsFinished comes for a finished or errored row if and only if it is not the last job's |
| `MasterCode.Master.CleanupRunningApps` | master/master.go:126-141 | is the boot step: running rows become cancelled and all others stay |
| `MasterCode.Master.NewApplication` | master/master.go:170-181 | adds one pending row under an id not used before and is the create step |
| `MasterCode.Master.DeleteApplication` | master/master.go:184-202 | succeeds exactly for the four statuses that are not live, takes away just that row, and tells a missing row from a live one |
| `MasterCode.Master.CancelSignal` | master/master.go:421-432 | signals exactly the current job's context, and panics exactly when the job has lost its app |
| `MasterCode.Master.CancelApplication` | master/master.go:209-250 | is the cancel step, answers as the reply function of the state says, and writes cancel to its own row if that is live and not the current job's, and to no other |
| `MasterCode.Master.NextApplication` | master/master.go:441-454 | finds a pending row of minimal creation time exactly if there is a pending row |
| `MasterCode.Master.SetStatus` | master/master.go:595-610 | writes the status if the context is live and the row exists, otherwise leaves the table and drops the app |
| `MasterCode.Master.StartExecutor` | agent/agent.go:133-148 | under a live context leads to an executor serving the job's scenario, or to a failed run |
| `MasterCode.Master.ServeExecutor` | executor/executor.go:150-154 | of the goroutines that ask to step exactly those that can do, in this order, and the executor is where these steps lead |
| `MasterCode.Master.WriteFinal` | master/master.go:385-387 | the last write finds the row and leaves it with the verdict |
| `MasterCode.Master.RunJob` | agent/agent.go:100-167 | nil exactly if the context is live, launch, Start and exit succeed and the executor sends nil, and then all users of a safe scenario have returned |
| `MasterCode.Master.AdvanceStatus` | master/master.go:390-404 | succeeds exactly if the job can still be saved; otherwise the process is down with no job |
| `MasterCode.Master.Provision` | master/master.go:390-397 | goes on exactly if the job can be saved after the calls so far and the scenario compiles; comes down exactly if it cannot be saved |
| `MasterCode.Master.Execute` | master/master.go:401-417 | comes down exactly if the job cannot be saved; without Cancel or Delete succeeds exactly if all stages of the agent go well |
| `MasterCode.Master.StampStart` | master/master.go:406-411 | succeeds exactly if the job can still be saved, then writes the time to its row; its failure keeps the app |
| `MasterCode.Master.Deferred` | master/master.go:368-388 | the row ends with the status the returned error stands for, and the completed run's writes are recorded |
| `MasterCode.Master.Run` | master/master.go:361-418 | with any client calls at its points, if run returns, the row has the status its error stands for, and no error means that all stages went well and the executor has joined; without Cancel or Delete of the application it returns, with no error exactly if all stages go well |
| `MasterCode.Master.ScheduleOnce` | master/master.go:332-359 | one round picks an oldest pending row, if there is any; without Cancel or Delete of it the row ends finished exactly if all stages go well and errored otherwise |
| `MasterCode.PromiseIsBroken` | master/master.go:204-217 | a run of whole calls after which cancelling a finished application returns its row |
| `MasterCode.PromiseIsBrokenByDelete` | master/master.go:421-425 | a run with an interrupted Delete after which cancelling a finished application of no current job panics |
| `MasterCode.Master.ClientCall` | master/master.go:170-250 | a call that can be made is made, any other changes nothing, and the job keeps its app |
| `MasterCode.Master.Interference` | master/master.go:170-250 | whatever clients call, the fields are those after the calls that can be made, in their order |
| `Catalogue.FlattenIsTree` | executor/client.go:24-54 | the nested loops visit exactly the declared groups, graphs and metrics |
| `Catalogue.FlattenKeepsOrder` | executor/client.go:24-26 | groups are walked in their declared order |
| `Catalogue.GraphsKeepOrder` | executor/client.go:34-36 | so are the graphs of a group |
| `Catalogue.MetricsKeepOrder` | executor/client.go:46-48 | so are the metrics of a graph, each once |
| `Catalogue.ParentsComeFirst` | executor/client.go:24-46 | a group comes before its graphs and a graph before its metrics |
| `Catalogue.FlattenIsScoped` | executor/client.go:24-54 | every graph is visited after its own group and every metric after its own graph |
| `Catalogue.FindOrCreate` | master/metriclog.go:87-112 | the row is there afterwards under the id returned, it is inserted only if it was missing, and no twin arises |
| `Catalogue.MetricLog.FindCreateGroup` | master/metriclog.go:77-113 | find-or-create when the requested application is the job's, otherwise always a new row; changes no other table |
| `Catalogue.MetricLog.FindCreateGraph` | master/metriclog.go:115-150 | find-or-create by title, unit and group, changing no other table |
| `Catalogue.MetricLog.FindCreateMetric` | master/metriclog.go:152-188 | find-or-create by title, type and graph, changing no other table |
| `Catalogue.WalkIsExact` | executor/client.go:24-56 | a walk adds rows for exactly the visited paths of its application |
| `Catalogue.CatalogueHoldsDeclared` | master/metriclog.go:77-188 | after any Setup calls the tables have no twins, parents resolve, and a path has a row if and only if it was declared |
| `Catalogue.RowsAndPathsMatch` | master/metriclog.go:87-95 | a path has at most one row and a row at most one application and path |
| `Catalogue.CatalogueIsExact` | master/metriclog.go:77-188 | after any sequence of complete or failing Setup calls of any applications every row has a declared path and every declared path exactly one row |
| `Catalogue.RepeatedWalk` | master/metriclog.go:97-112 | walking paths that all have rows changes no table |
| `Catalogue.GroupIsFoundAgainIff` | master/metriclog.go:87-107 | two requests for one group get the same row if and only if the requested application is the job's; then the second changes nothing, otherwise they leave twins |
| `Catalogue.SetupHasNoTwinsIff` | master/metriclog.go:87-107 | a whole Setup on an exact catalogue leaves no twins if and only if it is for the current job's application or all its groups are new and differently named |
| `Catalogue.RepeatedSetupHasNoTwinsIff` | master/metriclog.go:87-107 | a second Setup of a tree with groups leaves none if and only if it is for the current job's application |
| `Registry.FirstKnownIsFirst` | executor/client.go:58-107 | the declaration that counts for a title is the first one with a known type |
| `Registry.SetupRegisters` | executor/client.go:46-107 | a walk only adds to the registry, and its local map binds exactly the declared titles that were new, each to the row and instrument of its first declaration |
| `Metering.ReadingMeans` | executor/client.go:137-147 | an instrument that observed a list of values holds their 64-bit sum, their number or the last of them |
| `Metering.RunKeepsInv` | executor/client.go:14-150 | units stay registered under their titles with matching metric rows, values and samples, after every interleaving |
| `Metering.InstrumentsMatch` | executor/client.go:58-107 | a unit points to a counter, histogram or gauge according to its type |
| `Metering.AcceptedGrows` | executor/client.go:125-150 | what is accepted for a title with a unit grows by exactly the values of the calls of Notify for it |
| `Metering.NotifiedSinceBound` | executor/client.go:125-150 | all that is accepted for a title is what was notified for it since the Setup that bound it |
| `Metering.SampleWasStored` | executor/executor.go:211-270 | every stored row was stored by a report of its unit with all values accepted by then |
| `Metering.StoredRowsReportCalls` | executor/executor.go:211-270 | every stored row of a title is some report's, with the sum, the number or the last of all values of the calls of Notify between the Setup that bound the title and that report |
| `Metering.MetricIdsAreInjective` | executor/client.go:68-73 | two units never share a metric id |
| `Metering.MetricsAreConserved` | executor/executor.go:211-270 | every stored row of a unit accounts for a prefix of the values notified for its title, in the table of its type, and later rows for prefixes at least as long |
| `Metering.CountersAreMonotone` | executor/executor.go:229-234 | no run stores a lower row after a higher one for a counter of non-negative values whose sum fits in 63 bits |
| `Metering.NeverFallsIff` | executor/client.go:137-139 | a counter of non-negative values never falls if and only if their sum fits in 63 bits |
| `Metering.RowsCanFall` | executor/executor.go:229-234 | for all non-negative values whose sum does not fit there is a run of Setup, Notify and reports whose second row is below its first |
| `Metering.RowsNeverFallIff` | executor/executor.go:229-234 | the stored rows of these values never go down in any run if and only if the sum fits in 63 bits |
| `Metering.NotifyFindsUnits` | executor/client.go:125-150 | Notify has an effect exactly for titles with a unit |
| `Metering.BindingsAreStable` | executor/client.go:112-118 | no later step changes a title's unit, type, metric id or instrument, and a lost title stays lost |
| `Metering.SetupBindsIff` | executor/client.go:19-118 | a title has a unit after Setup if and only if it had one, or Setup succeeded, declared it as a counter, histogram or gauge, and it was not registered |
| `Metering.FailedSetupLoses` | executor/client.go:46-66 | a title is registered without a unit after Setup if and only if it was before, or Setup failed after it got to its declaration as a counter, histogram or gauge and it was new |
| `Metering.RepeatedSetupChangesNothing` | executor/client.go:14-118 | repeating a Setup changes neither tables, registry, instruments nor units |
| `ExecutorCode.Executor.SetupMetric` | executor/client.go:46-107 | one round of the innermost loop is one registration of the walk: exactly the counters, histograms and gauges with new titles get an unused instrument of their type and a unit |
| `ExecutorCode.Executor.SetupMetrics` | executor/client.go:46-108 | the loop over the metrics of a graph gets through as many paths as calls are answered |
| `ExecutorCode.Executor.SetupGraph` | executor/client.go:34-109 | so does one graph with its metrics |
| `ExecutorCode.Executor.SetupGroup` | executor/client.go:24-110 | so does one group with its graphs |
| `ExecutorCode.Executor.Setup` | executor/client.go:14-118 | is the Setup step, and returns nil exactly if every call of the tree was answered |
| `ExecutorCode.Executor.Notify` | executor/client.go:125-150 | is the Notify step: finds the title exactly if it has a unit, then adds to a counter, counts in a histogram, sets a gauge, and touches no other instrument |
| `ExecutorCode.Executor.NotifyAll` | executor/client.go:125-150 | any list of notifications is a run of Notify steps |
| `ExecutorCode.Executor.LogOnCue` | executor/executor.go:215-264 | one cue, with any notifications between its reports, is a run of the metering machine that logs every unit whose write does not fail exactly once, with the cue's time, and nothing else |
| `ExecutorCode.MergeUnits` | executor/client.go:112-115 | the loop merges the local map into the units |
| `EagerLoad.IndexNodes` | ent/metric_query.go:507-512 | indexes every node under its id and lists all ids |
| `EagerLoad.AttachNext` | ent/metric_query.go:521-531 | one neighbour is attached to its node and to no other, or it fails exactly if its foreign key is missing or unexpected |
| `EagerLoad.Attach` | ent/metric_query.go:521-531 | every node gets its neighbours in order, other edges are untouched, and it fails exactly if a foreign key is missing or unexpected |
| `EagerLoad.WithKeyInIsExpected` | ent/metric_query.go:514-529 | rows that satisfy the query's condition never take the error branches |
| `EagerLoad.ShareIsJoin` | ent/metric_query.go:514-531 | without a limit on the edge's query a node's share is the order-preserving filter of the table by foreign key |
| `EagerLoad.SharesAreJoinIff` | ent/metric_query.go:506-531 | every node's share is its part of the plain join if and only if the edge's query has no limit below the number of rows with one of the ids as key |
| `EagerLoad.ShareMembers` | ent/metric_query.go:521-531 | a share holds exactly the neighbours with the node's id as key |
| `EagerLoad.ShareKeepsOrder` | ent/metric_query.go:521-531 | a share lists the neighbours with the node's id as key in the order of the query, each as often as it is there |
| `EagerLoad.SharesPartition` | ent/metric_query.go:521-531 | with distinct ids the shares add up to all neighbours |
| `EagerLoad.LoadChildren` | ent/metric_query.go:506-532 | loading an O2M edge never fails, sets it to the share on every node and touches no other edge |
| `EagerLoad.GroupByKey` | ent/metric_query.go:482-489 | groups all nodes with a foreign key under it |
| `EagerLoad.LinkAll` | ent/metric_query.go:495-503 | links every node to the last graph with its key, and fails exactly if a graph was not asked for |
| `EagerLoad.LoadGraph` | ent/metric_query.go:481-504 | loading the M2O edge never fails and links every node to the graph with its key, or to none without a key |
| `EagerLoad.LinkIsLookup` | ent/metric_query.go:481-504 | without a limit on the edge's query a node with key k holds the graph with id k exactly if there is one |
| `EagerLoad.LinksAreLookupIff` | ent/metric_query.go:481-504 | every key is linked to the graph with this id, when there is one, if and only if the edge's query has no limit below the number of graphs found |
| `EagerLoad.ScanNodes` | ent/metric_query.go:457-476 | one fresh node a row, with empty edges and its foreign key if selected |
| `EagerLoad.LoadEdges` | ent/metric_query.go:506-588 | the three O2M edges are loaded as if each were alone |
| `EagerLoad.SqlAll` | ent/metric_query.go:439-591 | never fails and returns every metric with its foreign key if asked for, and the graph and the three edges that the join gives it |
| `Mutation.EdgeMutation.AddIDs` | ent/mutation.go:4491-4499 | is the Add call on the edge's state |
| `Mutation.EdgeMutation.RemoveIDs` | ent/mutation.go:4511-4519 | is the Remove call on the edge's state |
| `Mutation.EdgeMutation.ClearEdge` | ent/mutation.go:4501-4504 | is the Clear call on the edge's state |
| `Mutation.EdgeMutation.ResetEdge` | ent/mutation.go:4537-4542 | is the Reset call on the edge's state |
| `Mutation.EdgeRemembers` | ent/mutation.go:4491-4542 | after any calls the edge holds exactly the ids added and removed and the clear since the last Reset |
| `Mutation.OrderIsForgotten` | ent/mutation.go:4491-4542 | the same calls since the last Reset, in any order, leave the same edge |
| `Mutation.MetricMutation.SetGraphID` | ent/mutation.go:4452-4455 | is the SetGraph call on the mutation's state |
| `Mutation.MetricMutation.ClearGraph` | ent/mutation.go:4457-4460 | is the ClearGraph call on the mutation's state |
| `Mutation.MetricMutation.ResetGraph` | ent/mutation.go:4485-4489 | is the ResetGraph call on the mutation's state |
| `Mutation.MetricRemembers` | ent/mutation.go:4416-4489 | after any calls the type and the graph are those set last since their last Reset, and the graph is cleared exactly if it was since its last Reset |
| `Mutation.CompiledMeansIntended` | ent/metric_update.go:289-342 | the compiled clear and add lists, in any order of ids, have the intended effect on the edge and none on the others |
| `Mutation.CompileEdge` | ent/metric_update.go:289-342 | the three ifs do so, and a clear-all is emitted exactly if the edge was cleared |
| `Mutation.CompileGraph` | ent/metric_update.go:247-288 | the spec gives the metric the graph that was set, or else takes away a cleared one |
| `Mutation.SqlSave` | ent/metric_update.go:229-460 | carried out clears first, the spec has the intended effect on the type, the graph and each set of neighbours |
| `Mutation.SavedEdge` | ent/metric_update.go:289-342 | after saving, an id is a neighbour if and only if it was added since the last Reset, or was one and neither removed nor cleared since |
| `Mutation.SavedGraph` | ent/metric_update.go:254-288 | after saving, a metric has a graph if and only if that was set last since the last Reset, or none was, it was not cleared and it had this graph before |
| `Mutation.FieldIsLastSet` | ent/mutation.go:1071-1126 | the set value is that of the last Set since the last Reset |
| `Mutation.FieldAddsSinceSet` | ent/mutation.go:1104-1126 | the add value is the 64-bit sum of the Adds since the last Set or Reset, absent without any |
| `Mutation.FieldRemembers` | ent/mutation.go:1071-1126 | any list of calls has a last Set or Reset, or none, whose value the field has, with the sum of the Adds after it to add |
| `Int64.WrapIsCongruent` | ent/mutation.go:1104-1111 | a 64-bit sum differs from the true one by a multiple of 2 to the 64 |
| `Int64.WrapAdd` | executor/executor.go:172-174 | adding with wrap-around at every step or only at the end comes to the same |
| `Int64.NarrowIsCongruent` | executor/executor.go:176-177 | the WaitGroup counts its argument modulo 2 to the 32 |
| `Mutation.NumericField.Set` | ent/mutation.go:1071-1075 | is the Set call on the field's state |
| `Mutation.NumericField.Add` | ent/mutation.go:1104-1111 | is the Add call on the field's state |
| `Mutation.NumericField.ResetAll` | ent/mutation.go:1122-1126 | is the Reset call on the field's state |
| `BulkCreate.Builder.SetDefaults` | ent/application_create.go:193-211 | fills in exactly the unset ones of the four fields with defaults, and keeps all others |
| `BulkCreate.CheckNamesTheField` | ent/application_create.go:214-237 | check reports the first missing field in the schema's order |
| `BulkCreate.Builder.MakeSpec` | ent/application_create.go:252-365 | spec and entity are those of the builder's fields and edges |
| `BulkCreate.ColumnsHoldFields` | ent/application_create.go:262-325 | a column is in the spec exactly if its field is set, with the field's value |
| `BulkCreate.StoredIsReturned` | ent/application_create.go:252-325 | the stored row reads back as the entity that is returned |
| `BulkCreate.NodeHoldsFields` | ent/application_create.go:193-325 | the node has the fields given and the defaults of the four fields that have one |
| `BulkCreate.RowHoldsFields` | ent/application_create.go:193-363 | so has the row, column by column, with the edges that have children |
| `BulkCreate.EdgeIsThereIff` | ent/application_create.go:326-363 | an edge is in the spec exactly if it has children, with all of them |
| `BulkCreate.InsertedRows` | ent/application_create.go:396-401 | a batch gives row i the i-th free id, keeps the old rows and adds as many as there are specs |
| `BulkCreate.FirstErrorIsFirst` | ent/application_create.go:387-389 | the chain's error is that of the first builder to fail its check |
| `BulkCreate.BulkPassesIff` | ent/application_create.go:193-238 | all checks pass if and only if every builder set name, status and scenario |
| `BulkCreate.BulkIsStored` | ent/application_create.go:375-424 | after a successful bulk, the table has one row more per builder, which reads back as the returned node and has its edges, and every old row is as before |
| `BulkCreate.Mutate` | ent/application_create.go:383-412 | from mutator i on, the batch call happens once exactly if no check fails, nodes carry the ids of their specs, and without success nothing is written |
| `BulkCreate.OutcomeIsSaved` | ent/application_create.go:413-423 | what the chain comes to from its first mutator is what Save promises, with no builder or some |
| `BulkCreate.Save` | ent/application_create.go:375-424 | the database is called once exactly if there is a builder and all checks pass; then all rows are stored beside the unchanged old ones and every node and its row hold what the builder was given with its defaults, otherwise nothing is |
| `BulkCreate.Database.BatchCreate` | ent/application_create.go:396-401 | all specs are inserted and numbered in order, or nothing is, and ids are never given out twice |

## Left out

- MasterCode.Master.Run: client calls land whole, at numbered points between the stages; interrupted calls are in the transition system of `Jobs.dfy`.
- MasterCode.Master.DeleteApplication: is one uninterrupted call; its steps and what can come between them are in `Jobs.dfy`.
- MasterCode.Master.CancelApplication: is one uninterrupted call; its steps and what can come between them are in `Jobs.dfy`.
- MasterCode.Master.RunJob: starting the command, its pipes, the wait for its server and the Terminate call are outcomes that the environment chooses; no time bound is claimed, because the dial has none.
- ExecutorCode.Executor.Setup: requires that the executor's application is the current job's, which the generated executor guarantees (executor/generator.go:45); for other ids only the tables are followed, by `Catalogue.VisitFor`, not the registry.
- ExecutorCode.Executor.SetupGroup: requires the same, as part of Setup.
- ExecutorCode.Executor.LogOnCue: takes the units present at the cue as fixed and one unit's report as one step, though the code shares the map with later Setup calls; a Setup between the reports of a cue is in `Metering.dfy`. Of a histogram only the observation count is reported.
- Metering.MetricsAreConserved: of a histogram only the observation count is followed; percentiles, mean and deviation are computed by go-metrics.
- BulkCreate.Database.BatchCreate: accepts or refuses a batch as the environment says; the database's own rules, such as that a child has one parent, are not followed.
- BulkCreate.Builder.MakeSpec: the order of an edge's target nodes, which is that of a Go map, is left open by using sets.
- Mutation.SqlSave: the predicates of the update and the number of rows it affects belong to the SQL library.
- A panic of a user function, and an executor process that outlives its master.
- SQL generation, drivers, transactions and schema migration; gRPC, sockets, processes, files and logs.
- The web server, command line, loggers and generated messages.
- The random pauses between users and the system load metrics: floating point and OS counters.
- `started_at` is written but which of several writes wins is not followed, since a Set after a Clear leaves both in the spec.
- The query, create, update and delete files of the other entities, which are instances of the same templates; tags; the setters of the application builder; the `done` flag of a mutation.
- Hooks other than pass-through ones, the closures that fetch old values, and the `...X` wrappers that panic.
