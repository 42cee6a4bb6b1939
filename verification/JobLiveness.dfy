/**
 The queue drains: whatever Cancel and Delete calls do meanwhile, the scheduler
 gets through all pending applications as long as it goes on taking steps.  A
 schedule is an infinite sequence of states.
 */
module JobLiveness {
  import opened Wrappers
  import FJ = ForkJoin
  import opened Jobs
  import opened JobSafety

  function PendingRows(s: State): set<int> {
    set id | id in s.rows && s.rows[id].status == Pending
  }

  /** The scheduler is at the head of its loop and finds nothing to pick. */
  predicate Drained(s: State) {
    s.pc.Asleep? && PendingRows(s) == {}
  }

  /**
   A step of the scheduler, the agent or the executor that gets on with the
   work: it does not oversleep, its logs can be set up and it does not crash.
   */
  predicate Move(s: State, a: Action) {
    && !ByClient(a) && !a.Oversleep? && !a.LogsFail? && !a.Crash? && !a.Boot?
    && Enabled(s, a) && !Apply(s, a).pc.Down?
  }

  /** Any step of a Cancel or Delete call, whole or not: everything a client does except creating an application. */
  predicate Meddling(s: State, a: Action) {
    ByClient(a) && !a.Create? && Enabled(s, a)
  }

  ghost predicate MovesAt(f: nat -> State, n: nat) {
    exists a :: Move(f(n), a) && f(n + 1) == Apply(f(n), a)
  }

  ghost predicate IdlesAt(f: nat -> State, n: nat) {
    f(n + 1) == f(n) || exists a :: Meddling(f(n), a) && f(n + 1) == Apply(f(n), a)
  }

  ghost predicate StepsAt(f: nat -> State, n: nat) {
    MovesAt(f, n) || IdlesAt(f, n)
  }

  /** The queue is drained, or there is a move to come. */
  ghost predicate GoesOnAt(f: nat -> State, n: nat) {
    Drained(f(n)) || exists m: nat :: n <= m && MovesAt(f, m)
  }

  /** No application arrives, and unless the queue is drained there is always another move to come. */
  ghost predicate Schedule(f: nat -> State) {
    && (forall n: nat :: StepsAt(f, n))
    && (forall n: nat :: GoesOnAt(f, n))
  }

  // ---------- The measure ----------

  /** The application that was picked and whose provisioning is still to be written. */
  function TakenUp(s: State): set<int> {
    if s.pc.Picked? then {s.pc.app.id}
    else if s.pc.Assigned? && s.job.Some? && s.job.value.app.Some? then {s.job.value.app.value.id}
    else {}
  }

  /** The applications whose runs are still to come; the one picked is among them even if it was cancelled since. */
  function Todo(s: State): set<int> {
    PendingRows(s) + TakenUp(s)
  }

  /** Rank alone decreases, except where a run begins or the executor works. */
  lemma MoveLowersRank(s: State, a: Action)
    requires Move(s, a) && !a.WriteProvisioning? && !a.Executor?
    ensures Rank(Apply(s, a).pc) < Rank(s.pc)
  {
  }

  lemma ExecutorLowersWork(s: State, step: FJ.Action)
    requires ExecOk(s) && Enabled(s, Executor(step))
    ensures ExecOk(Apply(s, Executor(step)))
    ensures ExecutorWork(Apply(s, Executor(step))) < ExecutorWork(s)
  {
    ExecutorKeepsExecOk(s, step);
    FJ.StepDoesWork(s.exec.value, step);
  }

  /** No step but a creation adds to what is to be done, and the provisioning write takes from it. */
  lemma MoveShrinksTodo(s: State, a: Action)
    requires WritesOk(s) && Move(s, a)
    ensures Todo(Apply(s, a)) <= Todo(s)
    ensures a.WriteProvisioning? ==> Todo(Apply(s, a)) < Todo(s)
  {
    PendingIsOnlyCreated(s, a);
    if a.WriteProvisioning? {
      assert s.job.value.app.value.id in Todo(s) && s.job.value.app.value.id !in Todo(Apply(s, a));
    }
  }

  lemma MeddlingLeavesRun(s: State, a: Action)
    requires Meddling(s, a)
    ensures Apply(s, a).pc == s.pc && Apply(s, a).exec == s.exec && TakenUp(Apply(s, a)) == TakenUp(s)
  {
  }

  lemma MeddlingKeepsTodo(s: State, a: Action)
    requires WritesOk(s) && Meddling(s, a)
    ensures Todo(Apply(s, a)) <= Todo(s)
  {
    PendingIsOnlyCreated(s, a);
    MeddlingLeavesRun(s, a);
  }

  /** ExecutorWork, where it is defined. */
  ghost function WorkLeft(s: State): nat {
    if ExecOk(s) then ExecutorWork(s) else 0
  }

  // ---------- What becomes of the pending rows ----------

  /** A row that was pending still is, or is terminal, deleted or being run. */
  predicate Accounted(s: State, id: int) {
    || id !in s.rows
    || s.rows[id].status == Pending || Terminal(s.rows[id].status)
    || (PastAssigned(s.pc) && CurrentJob(s, id))
  }

  lemma MoveKeepsAccounted(s: State, a: Action, id: int)
    requires WritesOk(s) && Move(s, a) && Accounted(s, id)
    ensures Accounted(Apply(s, a), id)
  {
    if a.WriteVerdict? {
      VerdictIsTerminal(s.writes, s.pc.verdict);
    }
  }

  lemma MeddlingKeepsAccounted(s: State, a: Action, id: int)
    requires Meddling(s, a) && Accounted(s, id)
    ensures Accounted(Apply(s, a), id)
  {
  }

  ghost predicate AllAccounted(s: State, ids: set<int>) {
    Inv(s) && forall id | id in ids :: Accounted(s, id)
  }

  lemma StepKeepsAccounts(s: State, a: Action, ids: set<int>)
    requires AllAccounted(s, ids) && (Move(s, a) || Meddling(s, a))
    ensures AllAccounted(Apply(s, a), ids)
  {
    StepKeepsInv(s, a);
    forall id | id in ids ensures Accounted(Apply(s, a), id) {
      if Move(s, a) {
        MoveKeepsAccounted(s, a, id);
      } else {
        MeddlingKeepsAccounted(s, a, id);
      }
    }
  }

  /** Applications to do, stages of the round left, executor steps left, and whether the queue is drained. */
  datatype Measure = Measure(todo: set<int>, rank: nat, work: nat, drained: bool)

  ghost function MeasureOf(s: State): Measure {
    Measure(Todo(s), Rank(s.pc), WorkLeft(s), Drained(s))
  }

  predicate Lower(m: Measure, m': Measure) {
    m'.todo <= m.todo &&
    (m'.todo < m.todo || m'.rank < m.rank || (m'.rank == m.rank && m'.work < m.work))
  }

  predicate NoHigher(m: Measure, m': Measure) {
    m'.todo <= m.todo && m'.rank == m.rank && m'.work == m.work
  }

  lemma MoveLowersMeasure(s: State, a: Action)
    requires Inv(s) && Move(s, a)
    ensures Lower(MeasureOf(s), MeasureOf(Apply(s, a)))
  {
    MoveShrinksTodo(s, a);
    if a.Executor? {
      ExecutorLowersWork(s, a.step);
    } else if !a.WriteProvisioning? {
      MoveLowersRank(s, a);
    }
  }

  lemma MeddlingKeepsMeasure(s: State, a: Action)
    requires Inv(s) && Meddling(s, a)
    ensures NoHigher(MeasureOf(s), MeasureOf(Apply(s, a)))
  {
    StepKeepsInv(s, a);
    MeddlingLeavesRun(s, a);
    MeddlingKeepsTodo(s, a);
  }

  lemma MovesLower(f: nat -> State, n: nat)
    requires MovesAt(f, n) && Inv(f(n))
    ensures Lower(MeasureOf(f(n)), MeasureOf(f(n + 1)))
  {
    var a :| Move(f(n), a) && f(n + 1) == Apply(f(n), a);
    MoveLowersMeasure(f(n), a);
  }

  lemma IdlingKeepsMeasure(f: nat -> State, n: nat)
    requires IdlesAt(f, n) && Inv(f(n))
    ensures NoHigher(MeasureOf(f(n)), MeasureOf(f(n + 1)))
  {
    if f(n + 1) != f(n) {
      var a :| Meddling(f(n), a) && f(n + 1) == Apply(f(n), a);
      MeddlingKeepsMeasure(f(n), a);
    }
  }

  lemma NextIsAccounted(f: nat -> State, n: nat, ids: set<int>)
    requires StepsAt(f, n) && AllAccounted(f(n), ids)
    ensures AllAccounted(f(n + 1), ids)
  {
    if f(n + 1) != f(n) {
      var a :| (Move(f(n), a) || Meddling(f(n), a)) && f(n + 1) == Apply(f(n), a);
      StepKeepsAccounts(f(n), a, ids);
    }
  }

  lemma {:induction false} AccountedAt(f: nat -> State, n: nat, ids: set<int>)
    requires Schedule(f) && AllAccounted(f(0), ids)
    ensures AllAccounted(f(n), ids)
  {
    if n > 0 {
      AccountedAt(f, n - 1, ids);
      assert StepsAt(f, n - 1);
      NextIsAccounted(f, n - 1, ids);
    }
  }

  predicate LowersAt(g: nat -> Measure, n: nat) {
    Lower(g(n), g(n + 1))
  }

  predicate StaysAt(g: nat -> Measure, n: nat) {
    NoHigher(g(n), g(n + 1))
  }

  ghost predicate FallsAgain(g: nat -> Measure, n: nat) {
    g(n).drained || exists m: nat :: n <= m && LowersAt(g, m)
  }

  ghost predicate Falls(g: nat -> Measure) {
    && (forall n: nat :: LowersAt(g, n) || StaysAt(g, n))
    && (forall n: nat :: FallsAgain(g, n))
  }

  lemma NextFall(g: nat -> Measure, n: nat) returns (next: nat)
    requires Falls(g)
    ensures n <= next && (g(n).drained || LowersAt(g, next))
  {
    assert FallsAgain(g, n);
    next := n;
    if !g(n).drained {
      next :| n <= next && LowersAt(g, next);
    }
  }

  /** A measure that never rises, and falls again and again until the queue is drained, gets it drained. */
  lemma {:induction false} FallsToTheEnd(g: nat -> Measure, n: nat, next: nat) returns (m: nat)
    requires Falls(g) && n <= next && (g(n).drained || LowersAt(g, next))
    ensures g(m).drained
    decreases g(n).todo, g(n).rank, g(n).work, next - n
  {
    if g(n).drained {
      m := n;
    } else if LowersAt(g, n) {
      var later := NextFall(g, n + 1);
      m := FallsToTheEnd(g, n + 1, later);
    } else {
      assert StaysAt(g, n);
      m := FallsToTheEnd(g, n + 1, next);
    }
  }

  lemma ScheduleFalls(f: nat -> State)
    requires Schedule(f) && Inv(f(0))
    ensures Falls((n: nat) => MeasureOf(f(n)))
  {
    var g := (n: nat) => MeasureOf(f(n));
    forall n: nat
      ensures MovesAt(f, n) ==> LowersAt(g, n)
      ensures LowersAt(g, n) || StaysAt(g, n)
    {
      AccountedAt(f, n, {});
      assert StepsAt(f, n);
      if MovesAt(f, n) {
        MovesLower(f, n);
      } else {
        IdlingKeepsMeasure(f, n);
      }
    }
    forall n: nat ensures FallsAgain(g, n) {
      assert GoesOnAt(f, n);
      if !Drained(f(n)) {
        var m: nat :| n <= m && MovesAt(f, m);
        assert LowersAt(g, m);
      }
    }
  }

  /**
   From any state of any run, every schedule gets to a point where nothing is
   pending, and every application that was pending has a terminal status there or
   was deleted.
   */
  lemma QueueDrains(past: seq<Action>, f: nat -> State)
    requires Valid(Init(), past) && f(0) == After(Init(), past) && Schedule(f)
    ensures exists m: nat :: Drained(f(m)) &&
              forall id | id in PendingRows(f(0)) && id in f(m).rows :: Terminal(f(m).rows[id].status)
  {
    RunKeepsInv(past);
    var g := (n: nat) => MeasureOf(f(n));
    ScheduleFalls(f);
    var next := NextFall(g, 0);
    var m := FallsToTheEnd(g, 0, next);
    AccountedAt(f, m, PendingRows(f(0)));
    forall id | id in PendingRows(f(0)) && id in f(m).rows ensures Terminal(f(m).rows[id].status) {
      assert Accounted(f(m), id) && id !in PendingRows(f(m));
    }
  }

  // ---------- Schedules exist ----------

  lemma {:induction false} OldestExists(rows: map<int, Row>, ids: set<int>) returns (id: int)
    requires |ids| > 0 && ids <= rows.Keys
    ensures id in ids && forall other | other in ids :: rows[id].createdAt <= rows[other].createdAt
  {
    var x := FJ.Outside(ids, {});
    id := x;
    if |ids| > 1 {
      assert ids == (ids - {x}) + {x};
      var best := OldestExists(rows, ids - {x});
      if rows[best].createdAt < rows[x].createdAt {
        id := best;
      }
    }
  }

  lemma AsleepHasAMove(s: State) returns (a: Action)
    requires s.pc.Asleep? && !Drained(s)
    ensures Move(s, a)
  {
    var id := OldestExists(s.rows, PendingRows(s));
    assert OldestPending(s, id) by {
      forall other | other in s.rows && s.rows[other].status == Pending
        ensures s.rows[id].createdAt <= s.rows[other].createdAt
      {
        assert other in PendingRows(s);
      }
    }
    a := Pick(id);
  }

  /** The writes of provisioning and running are the only steps at which the scheduler can come to grief. */
  predicate BadWrite(s: State) {
    (s.pc.Assigned? || s.pc.Compiled?) && !JobCanSave(s)
  }

  ghost predicate HasAMove(s: State) {
    exists a :: Move(s, a)
  }

  lemma WriteIsAMove(s: State) returns (a: Action)
    requires (s.pc.Assigned? || s.pc.Compiled?) && JobCanSave(s)
    ensures Move(s, a)
  {
    a := if s.pc.Assigned? then WriteProvisioning else WriteRunning;
  }

  lemma RunHasAMove(s: State) returns (a: Action)
    requires JobOk(s) && (s.pc.Picked? || PastAssigned(s.pc)) && !s.pc.Compiled?
    ensures Move(s, a)
  {
    match s.pc
    case Picked(_) => a := Assign;
    case Compiling => a := Compile(true);
    case MarkedRunning => a := WriteStartedAt(0);
    case Launching => a := Launch(!JobCancelled(s));
    case Serving => a := StartReturns(false);
    case Draining => a := Exit(true);
    case Failed => a := Decide;
    case Final(_) => a := WriteVerdict;
  }

  lemma NoMove(s: State, a: Action)
    requires Move(s, a)
    ensures !s.pc.Down? && !Drained(s) && !BadWrite(s)
  {
    if a.Pick? {
      assert a.id in PendingRows(s);
    }
  }

  /**
   There is a move if and only if the process is up, the queue is not drained and
   the next step is not a write through a cancelled context or to a missing row.
   */
  lemma HasAMoveIff(s: State)
    requires JobOk(s)
    ensures HasAMove(s) <==> !s.pc.Down? && !Drained(s) && !BadWrite(s)
  {
    if !s.pc.Down? && !Drained(s) && !BadWrite(s) {
      var a;
      if s.pc.Asleep? {
        a := AsleepHasAMove(s);
      } else if s.pc.Assigned? || s.pc.Compiled? {
        a := WriteIsAMove(s);
      } else {
        a := RunHasAMove(s);
      }
    } else {
      forall a | Move(s, a) ensures false {
        NoMove(s, a);
      }
    }
  }

  /** While the executor serves and can still join, it has a move of its own. */
  lemma ServingHasAMove(s: State) returns (step: FJ.Action)
    requires ExecOk(s) && s.pc.Serving? && FJ.CanStillJoin(s.exec.value) && !s.exec.value.main.Sent?
    ensures Move(s, Executor(step)) && FJ.CanStillJoin(Apply(s, Executor(step)).exec.value)
  {
    step := FJ.NeverStuck(s.exec.value);
  }

  /** The row that was picked has been deleted since. */
  predicate PickedGone(s: State) {
    s.pc.Picked? && s.pc.app.id !in s.rows
  }

  /** The scheduler has no way round a failing write, or is down. */
  predicate Doomed(s: State) {
    s.pc.Down? || PickedGone(s) || BadWrite(s)
  }

  lemma SafeWrite(s: State) returns (a: Action)
    requires (s.pc.Assigned? || s.pc.Compiled?) && JobCanSave(s)
    ensures Move(s, a) && !Doomed(Apply(s, a))
  {
    a := if s.pc.Assigned? then WriteProvisioning else WriteRunning;
  }

  lemma SafeRun(s: State) returns (a: Action)
    requires JobOk(s) && !PickedGone(s) && (s.pc.Picked? || PastAssigned(s.pc)) && !s.pc.Compiled?
    ensures Move(s, a) && !Doomed(Apply(s, a))
  {
    match s.pc
    case Picked(_) => a := Assign;
    case Compiling => a := Compile(JobCanSave(s));
    case MarkedRunning => a := WriteStartedAt(0);
    case Launching => a := Launch(!JobCancelled(s));
    case Serving => a := StartReturns(false);
    case Draining => a := Exit(true);
    case Failed => a := Decide;
    case Final(_) => a := WriteVerdict;
  }

  /** A state that is not doomed has a move into one that is not. */
  lemma SafeMove(s: State) returns (a: Action)
    requires JobOk(s) && !Doomed(s) && !Drained(s)
    ensures Move(s, a) && !Doomed(Apply(s, a))
  {
    if s.pc.Asleep? {
      a := AsleepHasAMove(s);
    } else if s.pc.Assigned? || s.pc.Compiled? {
      a := SafeWrite(s);
    } else {
      a := SafeRun(s);
    }
  }

  ghost predicate HasASafeMove(s: State) {
    exists a :: Move(s, a) && !Doomed(Apply(s, a))
  }

  ghost predicate Afloat(s: State) {
    Inv(s) && !Doomed(s)
  }

  lemma MoveKeepsAfloat(s: State, a: Action)
    requires Afloat(s) && Move(s, a) && !Doomed(Apply(s, a))
    ensures Afloat(Apply(s, a))
  {
    StepKeepsInv(s, a);
  }

  /** The states of a schedule in which only the scheduler, the agent and the executor act. */
  ghost function Alone(s: State, n: nat): (s': State)
    requires Afloat(s)
    ensures Afloat(s')
    ensures n == 0 ==> s' == s
  {
    if n == 0 then s
    else
      var before := Alone(s, n - 1);
      if HasASafeMove(before) then
        var a :| Move(before, a) && !Doomed(Apply(before, a));
        MoveKeepsAfloat(before, a);
        Apply(before, a)
      else before
  }

  lemma AloneMoves(s: State, n: nat)
    requires Afloat(s)
    ensures Alone(s, n + 1) == Alone(s, n) ||
            exists a :: Move(Alone(s, n), a) && Alone(s, n + 1) == Apply(Alone(s, n), a)
    ensures !Drained(Alone(s, n)) ==> exists a :: Move(Alone(s, n), a) && Alone(s, n + 1) == Apply(Alone(s, n), a)
  {
    if !Drained(Alone(s, n)) {
      var a := SafeMove(Alone(s, n));
    }
  }

  lemma SafeSchedule(s: State) returns (f: nat -> State)
    requires Afloat(s)
    ensures f(0) == s && Schedule(f)
  {
    f := (n: nat) => Alone(s, n);
    forall n: nat ensures StepsAt(f, n) && (MovesAt(f, n) || Drained(f(n))) {
      AloneMoves(s, n);
    }
    forall n: nat ensures GoesOnAt(f, n) {
      assert MovesAt(f, n) || Drained(f(n));
    }
  }

  /** What the scheduler cannot get past, or a process that is down, stays so whatever the other steps. */
  predicate Stuck(s: State) {
    s.pc.Down? || BadWrite(s)
  }

  lemma MeddlingKeepsDoomed(s: State, a: Action)
    requires JobOk(s) && Meddling(s, a)
    ensures Doomed(s) ==> Doomed(Apply(s, a))
    ensures Stuck(s) ==> Stuck(Apply(s, a))
  {
  }

  lemma DoomedMove(s: State, a: Action)
    requires Doomed(s) && Move(s, a)
    ensures !Stuck(s) && Stuck(Apply(s, a))
  {
  }

  lemma DoomedStep(f: nat -> State, n: nat)
    requires StepsAt(f, n) && Inv(f(n)) && Doomed(f(n))
    ensures Inv(f(n + 1)) && Doomed(f(n + 1))
    ensures Stuck(f(n)) ==> Stuck(f(n + 1)) && !MovesAt(f, n)
    ensures MovesAt(f, n) ==> Stuck(f(n + 1))
  {
    if a :| Move(f(n), a) && f(n + 1) == Apply(f(n), a) {
      DoomedMove(f(n), a);
      StepKeepsInv(f(n), a);
    } else if f(n + 1) != f(n) {
      var a :| Meddling(f(n), a) && f(n + 1) == Apply(f(n), a);
      MeddlingKeepsDoomed(f(n), a);
      StepKeepsInv(f(n), a);
    }
    if Stuck(f(n)) {
      forall a ensures !Move(f(n), a) {
        if Move(f(n), a) {
          DoomedMove(f(n), a);
        }
      }
    }
  }

  ghost predicate IsDoomed(s: State) {
    Inv(s) && Doomed(s)
  }

  ghost predicate IsStuck(s: State) {
    Inv(s) && Stuck(s)
  }

  lemma DoomedNext(f: nat -> State, n: nat)
    requires StepsAt(f, n)
    ensures IsDoomed(f(n)) ==> IsDoomed(f(n + 1))
    ensures IsStuck(f(n)) ==> IsStuck(f(n + 1))
  {
    if IsDoomed(f(n)) {
      DoomedStep(f, n);
    }
  }

  predicate KeptAt(p: nat -> bool, n: nat) {
    p(n) ==> p(n + 1)
  }

  lemma {:induction false} KeptForever(p: nat -> bool, n: nat, m: nat)
    requires (forall k: nat :: KeptAt(p, k)) && n <= m && p(n)
    ensures p(m)
    decreases m - n
  {
    if n < m {
      KeptForever(p, n, m - 1);
      assert KeptAt(p, m - 1);
    }
  }

  /** From a doomed point of a schedule on all points are. */
  lemma DoomedFrom(f: nat -> State, n: nat, m: nat)
    requires (forall k: nat :: StepsAt(f, k)) && n <= m && IsDoomed(f(n))
    ensures IsDoomed(f(m))
  {
    ghost var p := (k: nat) => IsDoomed(f(k));
    forall k: nat ensures KeptAt(p, k) {
      assert StepsAt(f, k);
      DoomedNext(f, k);
    }
    KeptForever(p, n, m);
  }

  /** From a stuck one on all are stuck. */
  lemma StuckFrom(f: nat -> State, n: nat, m: nat)
    requires (forall k: nat :: StepsAt(f, k)) && n <= m && IsStuck(f(n))
    ensures IsStuck(f(m))
  {
    ghost var p := (k: nat) => IsStuck(f(k));
    forall k: nat ensures KeptAt(p, k) {
      assert StepsAt(f, k);
      DoomedNext(f, k);
    }
    KeptForever(p, n, m);
  }

  lemma NoScheduleFromDoomed(f: nat -> State)
    requires IsDoomed(f(0))
    ensures !Schedule(f)
  {
    if Schedule(f) {
      var m := NextMoveOfDoomed(f, 0);
      var later := NextMoveOfDoomed(f, m + 1);
      StuckNeverMoves(f, m + 1, later);
    }
  }

  lemma StuckNeverMoves(f: nat -> State, n: nat, m: nat)
    requires (forall k: nat :: StepsAt(f, k)) && n <= m && IsStuck(f(n))
    ensures !MovesAt(f, m)
  {
    StuckFrom(f, n, m);
    assert StepsAt(f, m);
    DoomedStep(f, m);
  }

  lemma NextMoveOfDoomed(f: nat -> State, n: nat) returns (m: nat)
    requires Schedule(f) && IsDoomed(f(n))
    ensures n <= m && MovesAt(f, m) && IsStuck(f(m + 1))
  {
    assert GoesOnAt(f, n);
    m :| n <= m && MovesAt(f, m);
    DoomedFrom(f, n, m);
    assert StepsAt(f, m);
    DoomedStep(f, m);
  }

  /**
   From a state of a run there is a schedule if and only if the process is up, the
   next write does not fail, and the application that was picked, if any, is still
   there.
   */
  lemma ScheduleExistsIff(past: seq<Action>)
    requires Valid(Init(), past)
    ensures (exists f: nat -> State :: f(0) == After(Init(), past) && Schedule(f)) <==> !Doomed(After(Init(), past))
  {
    RunKeepsInv(past);
    if !Doomed(After(Init(), past)) {
      var f := SafeSchedule(After(Init(), past));
    } else {
      forall f: nat -> State | f(0) == After(Init(), past) ensures !Schedule(f) {
        NoScheduleFromDoomed(f);
      }
    }
  }

  // ---------- Schedules on which nothing fails and nobody cancels or deletes ----------

  predicate Succeeds(a: Action) {
    a != Compile(false) && a != Launch(false) && a != StartReturns(false) && a != Exit(false)
  }

  ghost predicate SmoothAt(f: nat -> State, n: nat) {
    f(n + 1) == f(n) || exists a :: Move(f(n), a) && Succeeds(a) && f(n + 1) == Apply(f(n), a)
  }

  ghost predicate Smooth(f: nat -> State) {
    Schedule(f) && forall n: nat :: SmoothAt(f, n)
  }

  /** The executor can bring its WaitGroup to zero on this scenario. */
  predicate Joinable(vus: seq<int>) {
    FJ.CanStillJoin(FJ.Begin(vus))
  }

  /** Nothing has gone wrong with the current run. */
  predicate Flawless(s: State) {
    && !s.pc.Down? && !s.pc.Failed? && (s.pc.Final? ==> s.pc.verdict == Finished)
    && (s.pc.Picked? ==> s.pc.app.id in s.rows) && (InRun(s.pc) ==> JobCanSave(s))
  }

  lemma MoveKeepsFlawless(s: State, a: Action)
    requires JobOk(s) && Flawless(s) && Move(s, a) && Succeeds(a)
    ensures Flawless(Apply(s, a))
  {
  }

  /** A row with this scenario is pending, or finished after an executor that could join, or being run. */
  predicate Finishing(s: State, id: int, vus: seq<int>) {
    && id in s.rows && s.rows[id].vus == vus
    && (s.rows[id].status == Pending || (s.rows[id].status == Finished && Joinable(vus))
        || (PastAssigned(s.pc) && CurrentJob(s, id)))
  }

  lemma VerdictKeepsFinishing(s: State, id: int, vus: seq<int>)
    requires Inv(s) && Flawless(s) && Finishing(s, id, vus) && Move(s, WriteVerdict)
    ensures Finishing(Apply(s, WriteVerdict), id, vus)
  {
    FJ.SentWasTold(s.exec.value);
  }

  lemma MoveKeepsFinishing(s: State, a: Action, id: int, vus: seq<int>)
    requires Inv(s) && Flawless(s) && Finishing(s, id, vus) && Move(s, a) && Succeeds(a)
    ensures Finishing(Apply(s, a), id, vus)
  {
    if a.WriteVerdict? {
      VerdictKeepsFinishing(s, id, vus);
    } else {
      OtherKeepsFinishing(s, a, id, vus);
    }
  }

  lemma OtherKeepsFinishing(s: State, a: Action, id: int, vus: seq<int>)
    requires Finishing(s, id, vus) && Move(s, a) && !a.WriteVerdict?
    ensures Finishing(Apply(s, a), id, vus)
  {
  }

  /** The rows are those pending at the start, with their scenarios. */
  ghost predicate AllFinishing(s: State, start: State) {
    Inv(s) && Flawless(s) && forall id | id in PendingRows(start) :: Finishing(s, id, start.rows[id].vus)
  }

  lemma NextIsFinishing(f: nat -> State, n: nat, start: State)
    requires SmoothAt(f, n) && AllFinishing(f(n), start)
    ensures AllFinishing(f(n + 1), start)
  {
    if f(n + 1) != f(n) {
      var a :| Move(f(n), a) && Succeeds(a) && f(n + 1) == Apply(f(n), a);
      StepKeepsInv(f(n), a);
      MoveKeepsFlawless(f(n), a);
      forall id | id in PendingRows(start) ensures Finishing(f(n + 1), id, start.rows[id].vus) {
        MoveKeepsFinishing(f(n), a, id, start.rows[id].vus);
      }
    }
  }

  lemma {:induction false} FinishingAt(f: nat -> State, n: nat)
    requires (forall k: nat :: SmoothAt(f, k)) && AllFinishing(f(0), f(0))
    ensures AllFinishing(f(n), f(0))
  {
    if n > 0 {
      FinishingAt(f, n - 1);
      assert SmoothAt(f, n - 1);
      NextIsFinishing(f, n - 1, f(0));
    }
  }

  /** All rows pending in s are finished in s', and all their scenarios could join. */
  ghost predicate AllFinished(s: State, s': State) {
    forall id | id in PendingRows(s) :: HasRow(s', id, Finished) && Joinable(s.rows[id].vus)
  }

  /**
   On every schedule on which nothing fails and nobody cancels or deletes, from the
   head of the loop in any state of any run, all pending applications finish.
   */
  lemma AllFinish(past: seq<Action>, f: nat -> State) returns (m: nat)
    requires Valid(Init(), past) && After(Init(), past).pc.Asleep?
    requires f(0) == After(Init(), past) && Smooth(f)
    ensures Drained(f(m)) && AllFinished(f(0), f(m))
  {
    RunKeepsInv(past);
    QueueDrains(past, f);
    m :| Drained(f(m));
    FinishingAt(f, m);
    forall id | id in PendingRows(f(0)) ensures HasRow(f(m), id, Finished) && Joinable(f(0).rows[id].vus) {
      assert Finishing(f(m), id, f(0).rows[id].vus) && id !in PendingRows(f(m));
    }
  }

  /** Whatever is still to be run can join. */
  predicate Hopeful(s: State) {
    && (forall id | id in s.rows && s.rows[id].status == Pending :: Joinable(s.rows[id].vus))
    && (s.pc.Picked? ==> Joinable(s.pc.app.vus))
    && (InRun(s.pc) && s.exec.None? && s.job.Some? && s.job.value.app.Some? ==> Joinable(s.job.value.app.value.vus))
    && (s.pc.Serving? && s.exec.Some? ==> FJ.CanStillJoin(s.exec.value))
    && (s.pc.Assigned? || s.pc.Compiling? || s.pc.Compiled? || s.pc.MarkedRunning? || s.pc.Launching? ==> s.exec.None?)
  }

  lemma NextSmooth(s: State) returns (a: Action)
    requires JobOk(s) && Flawless(s) && !s.pc.Asleep? && !s.pc.Serving?
    ensures Move(s, a) && Succeeds(a) && !a.Executor?
  {
    match s.pc
    case Picked(_) => a := Assign;
    case Assigned => a := WriteProvisioning;
    case Compiling => a := Compile(true);
    case Compiled => a := WriteRunning;
    case MarkedRunning => a := WriteStartedAt(0);
    case Launching => a := Launch(true);
    case Draining => a := Exit(true);
    case Final(_) => a := WriteVerdict;
  }

  lemma PickSmooth(s: State) returns (a: Action)
    requires s.pc.Asleep? && !Drained(s)
    ensures Move(s, a) && Succeeds(a) && !a.Executor?
  {
    a := AsleepHasAMove(s);
  }

  lemma OtherKeepsHopeful(s: State, a: Action)
    requires JobOk(s) && WritesOk(s) && Flawless(s) && Hopeful(s) && Move(s, a) && Succeeds(a) && !a.Executor?
    ensures Hopeful(Apply(s, a))
  {
    PendingIsOnlyCreated(s, a);
  }

  lemma ServingSmooth(s: State) returns (a: Action)
    requires ExecOk(s) && s.pc.Serving? && Hopeful(s)
    ensures Move(s, a) && Succeeds(a) && Hopeful(Apply(s, a))
  {
    if s.exec.value.main.Sent? {
      a := StartReturns(true);
    } else {
      var step := ServingHasAMove(s);
      a := Executor(step);
    }
  }

  ghost predicate Ready(s: State) {
    Inv(s) && Flawless(s) && Hopeful(s)
  }

  ghost predicate ReadyMove(s: State, a: Action) {
    Move(s, a) && Succeeds(a) && Ready(Apply(s, a))
  }

  lemma SmoothMove(s: State) returns (a: Action)
    requires Ready(s) && !Drained(s)
    ensures ReadyMove(s, a)
  {
    if s.pc.Serving? {
      a := ServingSmooth(s);
    } else {
      if s.pc.Asleep? {
        a := PickSmooth(s);
      } else {
        a := NextSmooth(s);
      }
      OtherKeepsHopeful(s, a);
    }
    StepKeepsInv(s, a);
    MoveKeepsFlawless(s, a);
  }

  ghost function Smoothly(s: State, n: nat): (s': State)
    requires Ready(s)
    ensures Ready(s') && (n == 0 ==> s' == s)
  {
    if n == 0 then s
    else
      var before := Smoothly(s, n - 1);
      if exists a :: ReadyMove(before, a) then
        var a :| ReadyMove(before, a);
        Apply(before, a)
      else before
  }

  lemma SmoothlyMoves(s: State, n: nat)
    requires Ready(s)
    ensures var t, t' := Smoothly(s, n), Smoothly(s, n + 1);
            if exists a :: ReadyMove(t, a) then exists a :: ReadyMove(t, a) && t' == Apply(t, a)
            else Drained(t) && t' == t
  {
    if !Drained(Smoothly(s, n)) {
      var a := SmoothMove(Smoothly(s, n));
    }
  }

  /** From point n of f a move of this kind leads on, or the queue is drained and nothing happens. */
  ghost predicate ReadyAt(f: nat -> State, n: nat) {
    (exists a :: ReadyMove(f(n), a) && f(n + 1) == Apply(f(n), a)) || (Drained(f(n)) && f(n + 1) == f(n))
  }

  lemma SmoothStep(f: nat -> State, n: nat)
    requires ReadyAt(f, n)
    ensures StepsAt(f, n) && SmoothAt(f, n) && (MovesAt(f, n) || Drained(f(n)))
  {
    if a :| ReadyMove(f(n), a) && f(n + 1) == Apply(f(n), a) {
      assert Move(f(n), a) && Succeeds(a);
    }
  }

  lemma ReadyIsSmooth(f: nat -> State)
    requires forall n: nat :: ReadyAt(f, n)
    ensures Smooth(f)
  {
    forall n: nat ensures StepsAt(f, n) && SmoothAt(f, n) && GoesOnAt(f, n) {
      assert ReadyAt(f, n);
      SmoothStep(f, n);
    }
  }

  lemma SmoothExists(s: State) returns (f: nat -> State)
    requires Ready(s)
    ensures f(0) == s && Smooth(f)
  {
    f := (n: nat) => Smoothly(s, n);
    forall n: nat ensures ReadyAt(f, n) {
      SmoothlyMoves(s, n);
    }
    ReadyIsSmooth(f);
  }

  /**
   From the head of the loop there is a schedule on which nothing fails if and only
   if every pending application has a scenario that can join.
   */
  lemma SmoothExistsIff(past: seq<Action>)
    requires Valid(Init(), past) && After(Init(), past).pc.Asleep?
    ensures (exists f: nat -> State :: f(0) == After(Init(), past) && Smooth(f)) <==>
            forall id | id in PendingRows(After(Init(), past)) :: Joinable(After(Init(), past).rows[id].vus)
  {
    RunKeepsInv(past);
    var s := After(Init(), past);
    if forall id | id in PendingRows(s) :: Joinable(s.rows[id].vus) {
      assert forall id | id in s.rows && s.rows[id].status == Pending :: id in PendingRows(s);
      var f := SmoothExists(s);
    } else {
      forall f: nat -> State | f(0) == s ensures !Smooth(f) {
        if Smooth(f) {
          var m := AllFinish(past, f);
        }
      }
    }
  }

  // ---------- When the master comes down by itself ----------

  /** Neither a client nor a crash from outside. */
  predicate Quiet(acts: seq<Action>) {
    forall a | a in acts :: !ByClient(a) && !a.Crash?
  }

  /** Before the running write, the row or the context it needs is gone. */
  predicate MayComeDown(s: State) {
    || s.pc.Down? || PickedGone(s)
    || ((s.pc.Assigned? || s.pc.Compiling? || s.pc.Compiled?) && !JobCanSave(s))
  }

  ghost predicate ComesDown(s: State, acts: seq<Action>) {
    Quiet(acts) && Valid(s, acts) && After(s, acts).pc.Down?
  }

  lemma QuietKeepsUp(s: State, a: Action)
    requires JobOk(s) && Enabled(s, a) && !ByClient(a) && !a.Crash? && !MayComeDown(s)
    ensures !MayComeDown(Apply(s, a))
  {
  }

  lemma {:induction false} QuietRunKeepsUp(s: State, acts: seq<Action>)
    requires Inv(s) && !MayComeDown(s) && Quiet(acts) && Valid(s, acts)
    ensures Inv(After(s, acts)) && !MayComeDown(After(s, acts))
  {
    if acts != [] {
      var n := |acts| - 1;
      QuietRunKeepsUp(s, acts[..n]);
      QuietKeepsUp(After(s, acts[..n]), acts[n]);
      StepKeepsInv(After(s, acts[..n]), acts[n]);
    }
  }

  /** The next step on the way down. */
  lemma NextDown(s: State) returns (a: Action)
    requires MayComeDown(s) && !s.pc.Down?
    ensures Enabled(s, a) && !ByClient(a) && !a.Crash? && MayComeDown(Apply(s, a))
    ensures Apply(s, a).pc.Down? || (s.pc.Picked? && Apply(s, a).pc.Assigned?)
            || (s.pc.Compiling? && Apply(s, a).pc.Compiled?)
  {
    match s.pc
    case Picked(_) => a := Assign;
    case Assigned => a := WriteProvisioning;
    case Compiling => a := Compile(true);
    case Compiled => a := WriteRunning;
  }

  lemma {:induction false} WayDown(s: State) returns (acts: seq<Action>)
    requires MayComeDown(s)
    ensures ComesDown(s, acts)
    decreases if s.pc.Down? then 0 else if s.pc.Picked? || s.pc.Compiling? then 2 else 1
  {
    acts := [];
    if !s.pc.Down? {
      var a := NextDown(s);
      var rest := WayDown(Apply(s, a));
      Prepend(s, a, rest);
      acts := [a] + rest;
    }
  }

  /**
   From a state of a run the master can come down by itself, with no client and no
   crash from outside, if and only if it is down, the application just picked is
   gone, or one of the two writes before the executor is started cannot succeed.
   */
  lemma ComesDownIff(past: seq<Action>)
    requires Valid(Init(), past)
    ensures (exists acts :: ComesDown(After(Init(), past), acts)) <==> MayComeDown(After(Init(), past))
  {
    var s := After(Init(), past);
    RunKeepsInv(past);
    if MayComeDown(s) {
      var acts := WayDown(s);
    } else {
      forall acts ensures !ComesDown(s, acts) {
        if ComesDown(s, acts) {
          QuietRunKeepsUp(s, acts);
        }
      }
    }
  }

  /**
   A Cancel of the current job that lands before the running write can take the
   whole master down, and next to one of the two writes it leaves no way round.
   */
  lemma CancelBringsDown(past: seq<Action>, id: int)
    requires Valid(Init(), past) && CurrentJob(After(Init(), past), id)
    requires var pc := After(Init(), past).pc; pc.Assigned? || pc.Compiling? || pc.Compiled?
    ensures var s' := Apply(After(Init(), past), Cancel(id));
            && (exists acts :: ComesDown(s', acts))
            && (!s'.pc.Compiling? ==> !exists f: nat -> State :: f(0) == s' && Schedule(f))
  {
    Extend(Init(), past, Cancel(id));
    ComesDownIff(past + [Cancel(id)]);
    ScheduleExistsIff(past + [Cancel(id)]);
  }
}
