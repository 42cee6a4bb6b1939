/**
 The fork/join of an executor run: `runScen` starts one spawner per class of
 virtual users, every spawner starts its users one by one, and a WaitGroup
 joins them all before nil is sent on the `done` channel.

 The goroutines are modelled as a transition system.  One step is one of: the
 main goroutine adding the total to the WaitGroup, launching the next spawner
 or getting past `wg.Wait()`; a spawner starting its next user; or a user
 returning from its function and calling `wg.Done()`.
 */
module ForkJoin {
  import opened Int64

  /** User j of class i. */
  type User = (nat, nat)

  datatype Main = Adding | Launching(next: nat) | Waiting | Sent

  datatype State = State(
    nu: seq<int>,          // the number of users each class asks for
    told: int,             // what wg.Add leaves in the counter
    main: Main,            // where the main goroutine of runScen is
    wg: int,               // the WaitGroup counter
    pos: seq<nat>,         // the loop variable of every spawner
    spawned: set<User>,
    finished: set<User>,   // users that returned and called wg.Done()
    panicked: bool)        // the WaitGroup counter went below zero

  datatype Action = Add | Launch | Spawn(cls: nat) | Finish(user: User) | Join

  function Total(nu: seq<int>): int {
    if nu == [] then 0 else Total(nu[..|nu| - 1]) + nu[|nu| - 1]
  }

  predicate Nonnegative(nu: seq<int>) {
    forall i | 0 <= i < |nu| :: 0 <= nu[i]
  }

  function ClassUsers(i: nat, n: int): (users: set<User>)
    ensures forall u: User :: u in users <==> u.0 == i && u.1 < n
    ensures |users| == if n < 0 then 0 else n
    decreases if n < 0 then 0 else n
  {
    if n <= 0 then {} else ClassUsers(i, n - 1) + {(i, n - 1)}
  }

  /** The users a scenario declares: (i, j) for every class i and every j below Nu of i. */
  function Users(nu: seq<int>): (users: set<User>)
    ensures forall u: User :: u in users <==> u.0 < |nu| && u.1 < nu[u.0]
  {
    if nu == [] then {} else Users(nu[..|nu| - 1]) + ClassUsers(|nu| - 1, nu[|nu| - 1])
  }

  /** The loop of runScen that sums up the classes, in 64 bits. */
  method TotalVu(nu: seq<int>) returns (totalVu: int64)
    ensures totalVu == Wrap(Total(nu))
  {
    totalVu := 0;
    for i := 0 to |nu|
      invariant totalVu == Wrap(Total(nu[..i]))
    {
      assert nu[..i + 1][..i] == nu[..i];
      WrapAdd(Total(nu[..i]), nu[i]);
      totalVu := Wrap(totalVu + nu[i]);
    }
    assert nu[..|nu|] == nu;
  }

  /** What the counter of the WaitGroup, which has 32 bits, makes of the 64-bit total. */
  function Told(nu: seq<int>): int {
    Narrow(Wrap(Total(nu)))
  }

  function Init(nu: seq<int>, told: int): State {
    State(nu, told, Adding, 0, seq(|nu|, _ => 0), {}, {}, false)
  }

  /** runScen as it is entered. */
  function Begin(nu: seq<int>): State {
    Init(nu, Told(nu))
  }

  /** Spawner i exists once the main goroutine has gone past it. */
  predicate Launched(s: State, i: nat) {
    match s.main
    case Adding => false
    case Launching(next) => i < next
    case _ => true
  }

  predicate Enabled(s: State, a: Action) {
    && !s.panicked
    && match a
       case Add => s.main.Adding?
       case Launch => s.main.Launching?
       case Spawn(i) => i < |s.nu| == |s.pos| && Launched(s, i) && s.pos[i] < s.nu[i]
       case Finish(u) => u in s.spawned - s.finished
       case Join => s.main.Waiting? && s.wg == 0
  }

  function Apply(s: State, a: Action): State
    requires Enabled(s, a)
  {
    match a
    case Add =>
      s.(wg := s.told, panicked := s.told < 0, main := Launching(0))
    case Launch =>
      s.(main := if s.main.next < |s.nu| then Launching(s.main.next + 1) else Waiting)
    case Spawn(i) =>
      s.(spawned := s.spawned + {(i, s.pos[i])}, pos := s.pos[i := s.pos[i] + 1])
    case Finish(u) =>
      s.(finished := s.finished + {u}, wg := s.wg - 1, panicked := s.wg - 1 < 0)
    case Join =>
      s.(main := Sent)
  }

  /** `acts` is an interleaving the goroutines can take from s. */
  predicate Valid(s: State, acts: seq<Action>)
    decreases |acts|, 0
  {
    acts == [] ||
    (Valid(s, acts[..|acts| - 1]) && Enabled(After(s, acts[..|acts| - 1]), acts[|acts| - 1]))
  }

  function After(s: State, acts: seq<Action>): State
    requires Valid(s, acts)
    decreases |acts|, 1
  {
    if acts == [] then s else Apply(After(s, acts[..|acts| - 1]), acts[|acts| - 1])
  }

  lemma Extend(s: State, acts: seq<Action>, a: Action)
    requires Valid(s, acts) && Enabled(After(s, acts), a)
    ensures Valid(s, acts + [a]) && After(s, acts + [a]) == Apply(After(s, acts), a)
  {
    assert (acts + [a])[..|acts|] == acts;
  }

  // ---------- The invariant ----------

  ghost predicate Inv(s: State) {
    && |s.pos| == |s.nu|
    && (forall i | 0 <= i < |s.nu| :: s.pos[i] == 0 || s.pos[i] <= s.nu[i])
    && (forall i: nat | i < |s.nu| && !Launched(s, i) :: s.pos[i] == 0)
    && (forall u :: u in s.spawned <==> u.0 < |s.nu| && u.1 < s.pos[u.0])
    && s.finished <= s.spawned
    && (s.main.Adding? ==> s.wg == 0 && s.finished == {} && !s.panicked)
    && (!s.main.Adding? ==> s.wg == s.told - |s.finished|)
    && (s.panicked <==> s.wg < 0)
    && (s.told < 0 && !s.main.Adding? ==> s.panicked && s.main == Launching(0))
    && (s.main.Sent? ==> s.told <= |s.finished|)
  }

  /** Users are started before they finish, and only declared ones are. */
  ghost predicate Nested(s: State) {
    && s.finished <= s.spawned <= Users(s.nu)
    && |s.finished| <= |s.spawned| <= |Users(s.nu)|
  }

  lemma SpawnedAreUsers(s: State)
    requires Inv(s)
    ensures Nested(s)
  {
    assert s.spawned <= Users(s.nu);
    SubsetSize(s.finished, s.spawned);
    SubsetSize(s.spawned, Users(s.nu));
  }

  lemma SpawnKeepsInv(s: State, i: nat)
    requires Inv(s) && Enabled(s, Spawn(i))
    ensures Inv(Apply(s, Spawn(i)))
  {
    var s' := Apply(s, Spawn(i));
    forall u ensures u in s'.spawned <==> u.0 < |s'.nu| && u.1 < s'.pos[u.0] {
      assert u in s'.spawned <==> u in s.spawned || u == (i, s.pos[i]);
    }
  }

  lemma FinishKeepsInv(s: State, u: User)
    requires Inv(s) && Enabled(s, Finish(u))
    ensures Inv(Apply(s, Finish(u)))
  {
    assert |Apply(s, Finish(u)).finished| == |s.finished| + 1;
  }

  lemma StepKeepsInv(s: State, a: Action)
    requires Inv(s) && Enabled(s, a)
    ensures Inv(Apply(s, a))
  {
    match a
    case Spawn(i) => SpawnKeepsInv(s, i);
    case Finish(u) => FinishKeepsInv(s, u);
    case _ =>
  }

  lemma {:induction false} RunKeepsInv(nu: seq<int>, told: int, acts: seq<Action>)
    requires Valid(Init(nu, told), acts)
    ensures var s := After(Init(nu, told), acts); Inv(s) && s.nu == nu && s.told == told
  {
    if acts != [] {
      RunKeepsInv(nu, told, acts[..|acts| - 1]);
      StepKeepsInv(After(Init(nu, told), acts[..|acts| - 1]), acts[|acts| - 1]);
    }
  }

  // ---------- Counting ----------

  lemma {:induction false} SubsetSize<T>(a: set<T>, b: set<T>)
    ensures a <= b ==> |a| <= |b|
    ensures a <= b && |a| == |b| ==> a == b
  {
    if a != {} && a <= b {
      var x :| x in a;
      SubsetSize(a - {x}, b - {x});
    }
  }

  lemma DifferenceSize<T>(a: set<T>, b: set<T>)
    requires b <= a
    ensures |a - b| == |a| - |b|
  {
    assert a == (a - b) + b;
  }

  lemma Outside<T>(a: set<T>, b: set<T>) returns (x: T)
    requires b <= a && |b| < |a|
    ensures x in a - b
  {
    SubsetSize(a, b);
    assert !(a <= b);
    x :| x in a && x !in b;
  }

  function Positive(n: int): nat {
    if n < 0 then 0 else n
  }

  function PositiveTotal(nu: seq<int>): nat {
    if nu == [] then 0 else PositiveTotal(nu[..|nu| - 1]) + Positive(nu[|nu| - 1])
  }

  lemma {:induction false} PositiveTotalBound(nu: seq<int>)
    ensures Total(nu) <= PositiveTotal(nu)
    ensures Nonnegative(nu) <==> Total(nu) == PositiveTotal(nu)
  {
    if nu != [] {
      var i := |nu| - 1;
      PositiveTotalBound(nu[..i]);
      assert forall k | 0 <= k < i :: nu[..i][k] == nu[k];
    }
  }

  lemma {:induction false} UsersSize(nu: seq<int>)
    ensures |Users(nu)| == PositiveTotal(nu)
  {
    if nu != [] {
      var i := |nu| - 1;
      UsersSize(nu[..i]);
      assert Users(nu[..i]) !! ClassUsers(i, nu[i]);
    }
  }

  /** Without negative classes there are as many users as the sum of the classes; with one there are more. */
  lemma UsersCount(nu: seq<int>)
    ensures |Users(nu)| == PositiveTotal(nu)
    ensures Total(nu) <= |Users(nu)|
    ensures Nonnegative(nu) <==> Total(nu) == |Users(nu)|
  {
    PositiveTotalBound(nu);
    UsersSize(nu);
  }

  /** The WaitGroup is told the number of users. */
  predicate Counted(nu: seq<int>, told: int) {
    told == PositiveTotal(nu)
  }

  /** As long as the sum fits in the counter, it is the number of users if and only if no class is negative. */
  lemma CountedIff(nu: seq<int>)
    requires -TWO31 <= Total(nu) < TWO31
    ensures Told(nu) == Total(nu)
    ensures Counted(nu, Told(nu)) <==> Nonnegative(nu)
  {
    UsersCount(nu);
  }

  // ---------- What every interleaving keeps ----------

  /**
   When the WaitGroup is told the number of users, at every point of every
   interleaving its counter is the number of users that have not called Done, it
   never goes below zero, only started users have finished, and nil is sent only
   once every declared user has returned.
   */
  lemma JoinIsExact(nu: seq<int>, told: int, acts: seq<Action>)
    requires Counted(nu, told) && Valid(Init(nu, told), acts)
    ensures var s := After(Init(nu, told), acts);
            && !s.panicked && 0 <= s.wg
            && (!s.main.Adding? ==> s.wg == |Users(nu) - s.finished|)
            && s.finished <= s.spawned <= Users(nu)
            && (s.main.Sent? ==> s.finished == Users(nu))
  {
    var s := After(Init(nu, told), acts);
    RunKeepsInv(nu, told, acts);
    SpawnedAreUsers(s);
    UsersCount(nu);
    if !s.main.Adding? {
      DifferenceSize(Users(nu), s.finished);
    }
    SubsetSize(s.finished, Users(nu));
  }

  /** The user that step a starts in state s, when it starts one. */
  function Started(s: State, a: Action): User
    requires Enabled(s, a) && a.Spawn?
  {
    (a.cls, s.pos[a.cls])
  }

  lemma {:induction false} PrefixValid(s: State, acts: seq<Action>, k: nat)
    requires Valid(s, acts) && k <= |acts|
    ensures Valid(s, acts[..k])
    ensures k < |acts| ==> Enabled(After(s, acts[..k]), acts[k])
    ensures After(s, acts[..k]).spawned <= After(s, acts).spawned
    ensures k < |acts| ==> Apply(After(s, acts[..k]), acts[k]).spawned <= After(s, acts).spawned
  {
    var n := |acts| - 1;
    if k == |acts| {
      assert acts[..k] == acts;
    } else {
      PrefixValid(s, acts[..n], k);
      assert acts[..n][..k] == acts[..k];
    }
  }

  /** Two different steps of one run never start the same user. */
  lemma StartedOnce(nu: seq<int>, told: int, acts: seq<Action>, a: nat, b: nat)
    requires var s := Init(nu, told);
             Valid(s, acts) && a < b < |acts| && acts[a].Spawn? && acts[b].Spawn?
    ensures var s := Init(nu, told);
            && Valid(s, acts[..a]) && Enabled(After(s, acts[..a]), acts[a])
            && Valid(s, acts[..b]) && Enabled(After(s, acts[..b]), acts[b])
            && Started(After(s, acts[..a]), acts[a]) != Started(After(s, acts[..b]), acts[b])
  {
    PrefixValid(Init(nu, told), acts, a);
    PrefixValid(Init(nu, told), acts, b);
    assert acts[..b][..a] == acts[..a] && acts[..b][a] == acts[a];
    PrefixValid(Init(nu, told), acts[..b], a);
    RunKeepsInv(nu, told, acts[..b]);
  }

  // ---------- Progress ----------

  /** How many steps the goroutines still have to take. */
  ghost function Work(s: State): int {
    2 * |Users(s.nu)| - |s.spawned| - |s.finished| +
    match s.main
    case Adding => |s.nu| + 3
    case Launching(next) => |s.nu| - next + 2
    case Waiting => 1
    case Sent => 0
  }

  ghost predicate WellPlaced(s: State) {
    Inv(s) && (s.main.Launching? ==> s.main.next <= |s.nu|)
  }

  lemma InitWellPlaced(nu: seq<int>, told: int)
    ensures WellPlaced(Init(nu, told))
  {
  }

  lemma WorkIsLeft(s: State)
    requires WellPlaced(s)
    ensures 0 <= Work(s)
  {
    SpawnedAreUsers(s);
  }

  lemma StepDoesWork(s: State, a: Action)
    requires WellPlaced(s) && Enabled(s, a)
    ensures WellPlaced(Apply(s, a)) && Work(Apply(s, a)) == Work(s) - 1
  {
    StepKeepsInv(s, a);
    match a
    case Spawn(i) => SpawnDoesWork(s, i);
    case Finish(u) => FinishDoesWork(s, u);
    case _ =>
  }

  lemma SpawnDoesWork(s: State, i: nat)
    requires Inv(s) && Enabled(s, Spawn(i))
    ensures |Apply(s, Spawn(i)).spawned| == |s.spawned| + 1
  {
  }

  lemma FinishDoesWork(s: State, u: User)
    requires Enabled(s, Finish(u))
    ensures |Apply(s, Finish(u)).finished| == |s.finished| + 1
  {
  }

  /** Nil can still be sent, because it has been or because there are users enough to bring the counter to zero. */
  predicate CanStillJoin(s: State) {
    s.main.Sent? || (!s.panicked && 0 <= s.told <= PositiveTotal(s.nu))
  }

  /** As long as nil can still be sent some goroutine can step towards it: the join does not deadlock. */
  lemma NeverStuck(s: State) returns (a: Action)
    requires Inv(s) && CanStillJoin(s) && !s.main.Sent?
    ensures Enabled(s, a) && CanStillJoin(Apply(s, a))
    ensures a.Join? ==> |s.finished| == s.told
  {
    SpawnedAreUsers(s);
    UsersCount(s.nu);
    match s.main
    case Adding => a := Add;
    case Launching(_) => a := Launch;
    case Waiting =>
      if s.wg == 0 {
        a := Join;
      } else {
        var u := Outside(Users(s.nu), s.finished);
        a := if u in s.spawned then Finish(u) else Spawn(u.0);
      }
  }

  /** No step brings back what cannot join any more. */
  lemma LostJoinStaysLost(s: State, a: Action)
    requires Inv(s) && Enabled(s, a) && !CanStillJoin(s)
    ensures !CanStillJoin(Apply(s, a))
  {
    SpawnedAreUsers(s);
    UsersCount(s.nu);
  }

  /** A state from which nil is still to be sent and can be. */
  ghost predicate Open(s: State) {
    WellPlaced(s) && CanStillJoin(s) && !s.main.Sent?
  }

  lemma StepTowardsNil(s: State) returns (a: Action)
    requires Open(s)
    ensures Enabled(s, a) && Apply(s, a).told == s.told
    ensures if a.Join? then |s.finished| == s.told && Apply(s, a) == s.(main := Sent)
            else Open(Apply(s, a)) && 0 <= Work(Apply(s, a)) < Work(s)
  {
    a := NeverStuck(s);
    StepDoesWork(s, a);
    WorkIsLeft(Apply(s, a));
  }

  /** Any run can be led on to nil, as long as nil can still be sent, and then as many users as told have finished. */
  lemma {:induction false} LeadToNil(s: State, acts: seq<Action>) returns (more: seq<Action>)
    requires Valid(s, acts) && Open(After(s, acts))
    ensures Valid(s, more) && After(s, more).main.Sent? && |After(s, more).finished| == After(s, acts).told
    decreases Work(After(s, acts))
  {
    var s' := After(s, acts);
    var a := StepTowardsNil(s');
    Extend(s, acts, a);
    if a.Join? {
      more := acts + [a];
    } else {
      more := LeadToNil(s, acts + [a]);
    }
  }

  // ---------- Exactly when the join happens and can be trusted ----------

  /** Some interleaving sends nil. */
  ghost predicate JoinCanHappen(nu: seq<int>, told: int) {
    exists acts :: Joins(nu, told, acts)
  }

  ghost predicate Joins(nu: seq<int>, told: int, acts: seq<Action>) {
    Valid(Init(nu, told), acts) && After(Init(nu, told), acts).main.Sent?
  }

  /** nil on `done` means, in every interleaving, that every declared user returned. */
  ghost predicate JoinCanBeTrusted(nu: seq<int>, told: int) {
    forall acts | Joins(nu, told, acts) :: After(Init(nu, told), acts).finished == Users(nu)
  }

  /** The condition a caller can check: the WaitGroup is not told of fewer users than there are, or panics. */
  predicate JoinSafe(nu: seq<int>, told: int) {
    !(0 <= told < PositiveTotal(nu))
  }

  lemma SafeJoin(s: State)
    requires Inv(s) && JoinSafe(s.nu, s.told) && s.main.Sent?
    ensures s.finished == Users(s.nu)
  {
    SpawnedAreUsers(s);
    UsersCount(s.nu);
    SubsetSize(s.finished, Users(s.nu));
  }

  /** Nil is sent only where the counter got a number between zero and the number of users. */
  lemma SentWasTold(s: State)
    requires Inv(s) && s.main.Sent?
    ensures 0 <= s.told <= PositiveTotal(s.nu)
  {
    SpawnedAreUsers(s);
    UsersCount(s.nu);
  }

  /** As many users as told return, the WaitGroup is at zero, nil is sent, and another user is still to come. */
  lemma PrematureJoin(nu: seq<int>, told: int) returns (acts: seq<Action>)
    requires !JoinSafe(nu, told)
    ensures Joins(nu, told, acts) && After(Init(nu, told), acts).finished != Users(nu)
  {
    acts := LeadToNil(Init(nu, told), []);
    UsersCount(nu);
  }

  /** The join can be trusted if and only if the scenario passes the check. */
  lemma JoinCanBeTrustedIff(nu: seq<int>, told: int)
    ensures JoinCanBeTrusted(nu, told) <==> JoinSafe(nu, told)
  {
    if JoinSafe(nu, told) {
      forall acts | Joins(nu, told, acts) ensures After(Init(nu, told), acts).finished == Users(nu) {
        RunKeepsInv(nu, told, acts);
        SafeJoin(After(Init(nu, told), acts));
      }
    } else {
      var acts := PrematureJoin(nu, told);
    }
  }

  /** Nil can be sent if and only if the WaitGroup is told of no negative number and of no more users than there are. */
  lemma JoinCanHappenIff(nu: seq<int>, told: int)
    ensures JoinCanHappen(nu, told) <==> 0 <= told <= PositiveTotal(nu)
  {
    if 0 <= told <= PositiveTotal(nu) {
      var acts := LeadToNil(Init(nu, told), []);
      assert Joins(nu, told, acts);
    } else {
      forall acts | Valid(Init(nu, told), acts) ensures !After(Init(nu, told), acts).main.Sent? {
        NoJoin(nu, told, acts);
      }
    }
  }

  lemma {:induction false} NoJoin(nu: seq<int>, told: int, acts: seq<Action>)
    requires Valid(Init(nu, told), acts) && !(0 <= told <= PositiveTotal(nu))
    ensures !CanStillJoin(After(Init(nu, told), acts))
  {
    if acts != [] {
      var n := |acts| - 1;
      NoJoin(nu, told, acts[..n]);
      RunKeepsInv(nu, told, acts[..n]);
      LostJoinStaysLost(After(Init(nu, told), acts[..n]), acts[n]);
    }
  }

  /** Three classes of Go ints can wrap around to one user told of, and four with a negative one to a panic. */
  lemma OverflowingScenarios()
    ensures var nu := [] + [TWO63 - 1] + [TWO63 - 1] + [3];
            Nonnegative(nu) && Told(nu) == 1 && !JoinSafe(nu, Told(nu))
    ensures var nu := [] + [TWO63 - 1] + [TWO63 - 1] + [3] + [-5]; Told(nu) == -4 && JoinSafe(nu, Told(nu))
    ensures var nu := [] + [TWO32 + 1]; Nonnegative(nu) && Told(nu) == 1 && !JoinSafe(nu, Told(nu))
  {
    OneMoreClass([], TWO63 - 1);
    OneMoreClass([] + [TWO63 - 1], TWO63 - 1);
    OneMoreClass([] + [TWO63 - 1] + [TWO63 - 1], 3);
    OneMoreClass([] + [TWO63 - 1] + [TWO63 - 1] + [3], -5);
    OneMoreClass([], TWO32 + 1);
    WrapPeriod(TWO64 + 1);
    WrapPeriod(TWO64 - 4);
    assert Wrap(TWO32 + 1) == TWO32 + 1 && Narrow(TWO32 + 1) == 1;
  }

  lemma OneMoreClass(nu: seq<int>, n: int)
    ensures Total(nu + [n]) == Total(nu) + n && PositiveTotal(nu + [n]) == PositiveTotal(nu) + Positive(n)
  {
    assert (nu + [n])[..|nu|] == nu;
  }
}
