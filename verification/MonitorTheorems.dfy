// Whole-run theorems for prodcons_m.c: the same specification and the same liveness
// results as for the semaphore version.
module MonitorTheorems {
  import opened Options
  import opened Runs
  import opened Sums
  import opened RingBuffer
  import opened Body
  import opened Workload
  import opened Monitor
  import BoundedQueue

  function QueueAbs(s: State): BoundedQueue.Queue {
    QueueOf(s.mem)
  }

  function QueueEffect(s: State, a: Action): seq<BoundedQueue.Event> {
    if a.Act? && a.tid < |s.threads| && s.threads[a.tid].at.In?
    then var t := s.threads[a.tid]; QueueOp(t.role, t.at.st, t.data)
    else []
  }

  lemma {:induction false} StepRefinesQueue(s: State, a: Action)
    requires Data(s) && Step(s, a).Some?
    ensures Exec(BoundedQueue.Step, QueueAbs(s), QueueEffect(s, a)) == Some(QueueAbs(Step(s, a).value))
  {
    if a.Act? && s.threads[a.tid].at.In? {
      var t := s.threads[a.tid];
      assert t in s.threads && Ready(t.role, t.at.st, t.data, s.mem);
      assert Step(s, a).value.mem == Run(t.role, t.at.st, t.data, s.mem, a.v).1;
      StatementRefinesQueue(t.role, t.at.st, t.data, s.mem, a.v);
    }
  }

  // Every run, spurious wakeups included, is a run of the bounded queue, which is fed with the
  // values the producers' copies were given, in order, but for a copy not counted yet.
  lemma {:induction false} RunRefinesQueue(cells: seq<int>, loops: seq<(Role, nat)>, run: seq<Action>)
    requires |cells| > 0 && Exec(Step, Init(cells, loops), run).Some?
    ensures Exec(BoundedQueue.Step, BoundedQueue.Init(|cells|), Trace(Step, QueueEffect, Init(cells, loops), run))
         == Some(QueueOf(Exec(Step, Init(cells, loops), run).value.mem))
    ensures BoundedQueue.Fifo(QueueOf(Exec(Step, Init(cells, loops), run).value.mem))
    ensures var s := Exec(Step, Init(cells, loops), run).value;
            Trace(Step, Generates, Init(cells, loops), run) == QueueOf(s.mem).puts + Gather(s.threads, Held)
  {
    RunProducesGenerated(cells, loops, run);
    InitInv(cells, loops);
    IsInductive();
    forall s, a | Inv(s) && Step(s, a).Some?
      ensures Exec(BoundedQueue.Step, QueueAbs(s), QueueEffect(s, a)) == Some(QueueAbs(Step(s, a).value))
    {
      StepRefinesQueue(s, a);
    }
    Simulation(Step, Inv, BoundedQueue.Step, QueueAbs, QueueEffect, Init(cells, loops), run);
    BoundedQueue.RunIsFifo(|cells|, Trace(Step, QueueEffect, Init(cells, loops), run));
  }

  lemma {:induction false} RunGenerates(s: State, run: seq<Action>)
    requires Inv(s) && Exec(Step, s, run).Some?
    ensures Inv(Exec(Step, s, run).value)
    ensures Generated(Exec(Step, s, run).value) == Generated(s) + Trace(Step, Generates, s, run)
  {
    IsInductive();
    forall x, a | Inv(x) && Step(x, a).Some?
      ensures Generated(Step(x, a).value) == Generated(x) + Generates(x, a)
    {
      StepGenerates(x, a);
    }
    Accumulates(Step, Inv, Generated, Generates, s, run);
    Invariance(Step, Inv, s, run);
  }

  // The items produced are the values the producers' copies were given, in order, but for at
  // most one copy not counted yet.
  lemma {:induction false} RunProducesGenerated(cells: seq<int>, loops: seq<(Role, nat)>, run: seq<Action>)
    requires |cells| > 0 && Exec(Step, Init(cells, loops), run).Some?
    ensures var s := Exec(Step, Init(cells, loops), run).value;
            && Trace(Step, Generates, Init(cells, loops), run) == s.mem.produced + Gather(s.threads, Held)
            && |Gather(s.threads, Held)| <= 1
            && (s.owner == None || Finished(s) ==> Gather(s.threads, Held) == [])
  {
    var s0, s := Init(cells, loops), Exec(Step, Init(cells, loops), run).value;
    InitInv(cells, loops);
    RunGenerates(s0, run);
    GatherNothing(s0.threads, Held);
    HeldByOne(s);
    NothingHeld(s);
  }

  lemma {:induction false} NothingHeld(s: State)
    requires MutexInv(s)
    ensures s.owner == None || Finished(s) ==> Gather(s.threads, Held) == []
  {
    if s.owner == None || Finished(s) {
      forall t | t in s.threads ensures Held(t) == [] {
        var i: nat :| i < |s.threads| && s.threads[i] == t;
        assert HoldsMutex(t.at) <==> s.owner == Some(i);
      }
      GatherNothing(s.threads, Held);
    }
  }

  // While no thread holds the mutex, the produced log is the consumed log followed by the
  // stored cells; and no wakeup is lost.
  ghost predicate Safe(s: State, capacity: nat) {
    && 0 <= s.mem.ring.counter <= |s.mem.ring.buf| == capacity
    && (s.owner == None ==>
         && s.mem.produced == s.mem.consumed + Stored(s.mem.ring)
         && s.mem.ring.inIdx == (s.mem.ring.outIdx + s.mem.ring.counter) % |s.mem.ring.buf|)
    && NoLostWakeup(s, Producer) && NoLostWakeup(s, Consumer)
  }

  lemma {:induction false} InvIsSafe(s: State)
    requires Inv(s)
    ensures Safe(s, |s.mem.ring.buf|)
  {
    if s.owner == None {
      Conservation(s.mem);
    }
  }

  // In every reachable state at most one thread holds the mutex, and the state is safe.
  lemma {:induction false} RunIsSafe(cells: seq<int>, loops: seq<(Role, nat)>, run: seq<Action>)
    requires |cells| > 0 && Exec(Step, Init(cells, loops), run).Some?
    ensures var s := Exec(Step, Init(cells, loops), run).value;
            MutexInv(s) && Safe(s, |cells|)
  {
    RunBudget(cells, loops, run);
    InvIsSafe(Exec(Step, Init(cells, loops), run).value);
  }

  predicate Past(t: Thread) {
    t.at.Signal? || t.at.Unlock?
  }

  function ToProduce(t: Thread): int {
    if t.role == Producer then (if Past(t) then t.left - 1 else t.left) else 0
  }

  function ToConsume(t: Thread): int {
    if t.role == Consumer then (if Past(t) then t.left - 1 else t.left) else 0
  }

  function Supply(s: State): int {
    |s.mem.produced| + Sum(s.threads, ToProduce)
  }

  function Demand(s: State): int {
    |s.mem.consumed| + Sum(s.threads, ToConsume)
  }

  // Progress of a thread: 9 for each iteration left. A signal pays for the wakeup it causes.
  function ThreadRank(t: Thread): int {
    9 * (t.left - 1) +
    match t.at
    case Lock => 9
    case Test => 8
    case Asleep => 7
    case Woken => 9
    case In(st) => (match st case Copy => 7 case Advance => 6 case Count => 5)
    case Signal => 4
    case Unlock => 1
    case Done => 9
  }

  function Rank(s: State): int {
    Sum(s.threads, ThreadRank)
  }

  function SpuriousCost(a: Action): int {
    if a.Spurious? then 3 else 0
  }

  // How the counted sums change with the threads a step moves.
  lemma {:induction false} StepSum(s: State, a: Action, w: Thread -> int)
    requires Step(s, a).Some?
    ensures var n := Step(s, a).value;
            var own := w(n.threads[a.tid]) - w(s.threads[a.tid]);
            if a.Act? && s.threads[a.tid].at == Signal && AnyAsleep(s.threads, Partner(s.threads[a.tid].role))
            then a.wake < |s.threads| && s.threads[a.wake].at == Asleep
              && Sum(n.threads, w) == Sum(s.threads, w) + own
                                      + w(s.threads[a.wake].(at := Woken)) - w(s.threads[a.wake])
            else Sum(n.threads, w) == Sum(s.threads, w) + own
  {
    var n := Step(s, a).value;
    Update(s.threads, a.tid, n.threads[a.tid], w);
    var after := s.threads[a.tid := n.threads[a.tid]];
    if a.Act? && s.threads[a.tid].at == Signal && AnyAsleep(s.threads, Partner(s.threads[a.tid].role)) {
      Update(after, a.wake, s.threads[a.wake].(at := Woken), w);
      assert n.threads == after[a.wake := s.threads[a.wake].(at := Woken)];
    } else {
      assert n.threads == after;
    }
  }

  // A thread owes one item less exactly when it counts one.
  lemma {:induction false} OwnBudget(s: State, a: Action)
    requires Inv(s) && Step(s, a).Some?
    ensures var n := Step(s, a).value; var t, u := s.threads[a.tid], n.threads[a.tid];
            && ToProduce(u) + |n.mem.produced| == ToProduce(t) + |s.mem.produced|
            && ToConsume(u) + |n.mem.consumed| == ToConsume(t) + |s.mem.consumed|
  {
    assert WellFormed(s.threads[a.tid]);
    if a.Act? && s.threads[a.tid].at.In? {
      OwnStatement(s, a);
    }
  }

  lemma {:induction false} OwnStatement(s: State, a: Action)
    requires Step(s, a).Some? && a.Act? && s.threads[a.tid].at.In?
    ensures var n := Step(s, a).value; var t, u := s.threads[a.tid], n.threads[a.tid];
            && ToProduce(u) + |n.mem.produced| == ToProduce(t) + |s.mem.produced|
            && ToConsume(u) + |n.mem.consumed| == ToConsume(t) + |s.mem.consumed|
  {
  }

  lemma {:induction false} StepBudget(s: State, a: Action)
    requires Inv(s) && Step(s, a).Some?
    ensures Supply(Step(s, a).value) == Supply(s) && Demand(Step(s, a).value) == Demand(s)
  {
    OwnBudget(s, a);
    StepSum(s, a, ToProduce);
    StepSum(s, a, ToConsume);
  }

  lemma {:induction false} OwnRank(s: State, a: Action)
    requires Inv(s) && Step(s, a).Some?
    ensures var t, u := s.threads[a.tid], Step(s, a).value.threads[a.tid];
            ThreadRank(u) + (if a.Act? && t.at == Signal then 3 else 1) <= ThreadRank(t) + SpuriousCost(a)
  {
    assert WellFormed(s.threads[a.tid]);
  }

  lemma {:induction false} StepRank(s: State, a: Action)
    requires Inv(s) && Step(s, a).Some?
    ensures Rank(Step(s, a).value) + 1 <= Rank(s) + SpuriousCost(a)
  {
    StepSum(s, a, ThreadRank);
    OwnRank(s, a);
  }

  ghost predicate Budget(s: State, supply: int, demand: int, capacity: int) {
    Inv(s) && Supply(s) == supply && Demand(s) == demand && |s.mem.ring.buf| == capacity
  }

  lemma {:induction false} InitBudget(cells: seq<int>, loops: seq<(Role, nat)>)
    requires |cells| > 0
    ensures Budget(Init(cells, loops), Sum(loops, ProducerLoops), Sum(loops, ConsumerLoops), |cells|)
    ensures Rank(Init(cells, loops)) == 9 * (Sum(loops, ProducerLoops) + Sum(loops, ConsumerLoops))
  {
    var s := Init(cells, loops);
    InitInv(cells, loops);
    SameSum(s.threads, loops, ToProduce, ProducerLoops);
    SameSum(s.threads, loops, ToConsume, ConsumerLoops);
    StartRank(s.threads, loops, ThreadRank, 9);
  }

  lemma {:induction false} BudgetKept(s: State, a: Action, supply: int, demand: int, capacity: int)
    requires Budget(s, supply, demand, capacity) && Step(s, a).Some?
    ensures Budget(Step(s, a).value, supply, demand, capacity)
  {
    StepInv(s, a);
    StepBudget(s, a);
  }

  lemma {:induction false} RunBudget(cells: seq<int>, loops: seq<(Role, nat)>, run: seq<Action>)
    requires |cells| > 0 && Exec(Step, Init(cells, loops), run).Some?
    ensures Budget(Exec(Step, Init(cells, loops), run).value,
                   Sum(loops, ProducerLoops), Sum(loops, ConsumerLoops), |cells|)
  {
    var supply, demand := Sum(loops, ProducerLoops), Sum(loops, ConsumerLoops);
    InitBudget(cells, loops);
    var budget := s => Budget(s, supply, demand, |cells|);
    forall s, a | budget(s) && Step(s, a).Some? ensures budget(Step(s, a).value) {
      BudgetKept(s, a, supply, demand, |cells|);
    }
    Invariance(Step, budget, Init(cells, loops), run);
  }

  ghost predicate Finished(s: State) {
    forall t :: t in s.threads ==> t.at == Done
  }

  // Nothing can happen any more, short of a spurious wakeup.
  ghost predicate Stuck(s: State) {
    forall a: Action :: a.Act? ==> Step(s, a) == None
  }

  // The mutex owner can always take a step.
  lemma {:induction false} OwnerMoves(s: State, i: nat)
    requires i < |s.threads| && HoldsMutex(s.threads[i].at)
    ensures exists wake: nat :: Step(s, Act(i, wake, 0)).Some?
  {
    var t := s.threads[i];
    var wake: nat := if AnyAsleep(s.threads, Partner(t.role))
                     then var u: nat :| u < |s.threads| && SleepsAs(s.threads[u], Partner(t.role)); u else 0;
    assert Step(s, Act(i, wake, 0)).Some?;
  }

  lemma {:induction false} StuckThreads(s: State)
    requires Inv(s) && Stuck(s)
    ensures s.owner == None
    ensures forall t :: t in s.threads ==> t.at == Done || t.at == Asleep
  {
    if s.owner.Some? {
      OwnerMoves(s, s.owner.value);
    }
    forall t | t in s.threads ensures t.at == Done || t.at == Asleep {
      var i: nat :| i < |s.threads| && s.threads[i] == t;
      assert Step(s, Act(i, 0, 0)) == None;
    }
  }

  // With nobody awake, sleepers of a role mean that nothing is available to it.
  lemma {:induction false} StuckSleepers(s: State, role: Role)
    requires Inv(s) && Stuck(s) && AnyAsleep(s.threads, role)
    ensures Available(role, s.mem.ring) == 0
  {
    StuckThreads(s);
    AllZero(s.threads, if role == Consumer then ForConsumers else ForProducers);
  }

  lemma {:induction false} SleeperOwes(s: State, t: Thread)
    requires Inv(s) && t in s.threads && t.at == Asleep
    ensures t.role == Producer ==> Sum(s.threads, ToProduce) > 0
    ensures t.role == Consumer ==> Sum(s.threads, ToConsume) > 0
  {
    forall u | u in s.threads ensures ToProduce(u) >= 0 && ToConsume(u) >= 0 {
      assert WellFormed(u);
    }
    var i: nat :| i < |s.threads| && s.threads[i] == t;
    AtLeast(s.threads, i, ToProduce);
    AtLeast(s.threads, i, ToConsume);
  }

  lemma {:induction false} NoSleeperOwesNothing(s: State, role: Role)
    requires Inv(s) && Stuck(s) && !AnyAsleep(s.threads, role)
    ensures Sum(s.threads, if role == Producer then ToProduce else ToConsume) == 0
  {
    StuckThreads(s);
    forall t | t in s.threads && t.role == role ensures t.left == 0 {
      assert !SleepsAs(t, role) && WellFormed(t);
    }
    AllZero(s.threads, if role == Producer then ToProduce else ToConsume);
  }

  // Producers and consumers never sleep together, so what is left to do is on one side;
  // a balanced program has nothing left.
  lemma {:induction false} StuckIsFinishedIffBalanced(s: State)
    requires Inv(s) && Stuck(s)
    ensures Finished(s) <==> Balanced(Supply(s), Demand(s), |s.mem.ring.buf|)
    ensures Finished(s) ==> Settled(s.mem, Supply(s), Demand(s))
  {
    StuckThreads(s);
    if AnyAsleep(s.threads, Producer) {
      StuckSleepers(s, Producer);
      var t :| t in s.threads && SleepsAs(t, Producer);
      SleeperOwes(s, t);
      if AnyAsleep(s.threads, Consumer) {
        StuckSleepers(s, Consumer);
      }
      NoSleeperOwesNothing(s, Consumer);
    } else {
      NoSleeperOwesNothing(s, Producer);
      if AnyAsleep(s.threads, Consumer) {
        StuckSleepers(s, Consumer);
        var t :| t in s.threads && SleepsAs(t, Consumer);
        SleeperOwes(s, t);
      } else {
        NoSleeperOwesNothing(s, Consumer);
        AllCountedIsSettled(s.mem, Supply(s), Demand(s));
        forall t | t in s.threads ensures t.at == Done {
          assert !SleepsAs(t, t.role);
        }
      }
    }
  }

  // Every maximal run ends with all threads done if and only if the loop counts are
  // balanced for the buffer, and then in a settled state.
  lemma {:induction false} MaximalRunFinishesIffBalanced(cells: seq<int>, loops: seq<(Role, nat)>, run: seq<Action>)
    requires |cells| > 0 && Exec(Step, Init(cells, loops), run).Some?
    requires Stuck(Exec(Step, Init(cells, loops), run).value)
    ensures var s := Exec(Step, Init(cells, loops), run).value;
            var supply, demand := Sum(loops, ProducerLoops), Sum(loops, ConsumerLoops);
            && (Finished(s) <==> Balanced(supply, demand, |cells|))
            && (Finished(s) ==> Settled(s.mem, supply, demand))
  {
    RunBudget(cells, loops, run);
    StuckIsFinishedIffBalanced(Exec(Step, Init(cells, loops), run).value);
  }

  // A reachable state that is not finished can go on without spurious wakeups.
  lemma {:induction false} DeadlockFree(cells: seq<int>, loops: seq<(Role, nat)>, run: seq<Action>)
    requires |cells| > 0 && Exec(Step, Init(cells, loops), run).Some?
    requires Balanced(Sum(loops, ProducerLoops), Sum(loops, ConsumerLoops), |cells|)
    ensures var s := Exec(Step, Init(cells, loops), run).value;
            !Finished(s) ==> exists tid: nat, wake: nat, v: int :: Step(s, Act(tid, wake, v)).Some?
  {
    var s := Exec(Step, Init(cells, loops), run).value;
    if forall tid: nat, wake: nat, v: int :: Step(s, Act(tid, wake, v)) == None {
      MaximalRunFinishesIffBalanced(cells, loops, run);
    }
  }

  lemma {:induction false} RankIsNat(s: State)
    requires Inv(s)
    ensures Rank(s) >= 0
  {
    forall t | t in s.threads ensures ThreadRank(t) >= 0 {
      assert WellFormed(t);
    }
    NonNegative(s.threads, ThreadRank);
  }

  // Termination: at most 9 steps for each loop iteration, and 3 more for each spurious wakeup.
  lemma {:induction false} Termination(cells: seq<int>, loops: seq<(Role, nat)>, run: seq<Action>)
    requires |cells| > 0 && Exec(Step, Init(cells, loops), run).Some?
    ensures |run| <= 9 * (Sum(loops, ProducerLoops) + Sum(loops, ConsumerLoops)) + Sum(run, SpuriousCost)
  {
    InitBudget(cells, loops);
    IsInductive();
    forall s | Inv(s) ensures Rank(s) >= 0 {
      RankIsNat(s);
    }
    forall s, a | Inv(s) && Step(s, a).Some? ensures Rank(Step(s, a).value) + 1 <= Rank(s) + SpuriousCost(a) {
      StepRank(s, a);
    }
    Bounded(Step, Inv, Rank, SpuriousCost, Init(cells, loops), run);
  }

  // The loop bodies, as the source has them; waiting for room or an item is not listed.
  datatype Deed = TakeMutex | Do(st: Statement) | SignalPartner | GiveMutex

  function Script(): seq<Deed> {
    [TakeMutex, Do(Copy), Do(Advance), Do(Count), SignalPartner, GiveMutex]
  }

  // What an action of thread tid does.
  function Deeds(tid: nat): (State, Action) -> seq<Deed> {
    (s: State, a: Action) => if a.Act? && a.tid == tid && tid < |s.threads| then DeedAt(s.threads[tid].at) else []
  }

  function DeedAt(p: Point): seq<Deed> {
    match p
    case Lock => [TakeMutex]
    case In(st) => [Do(st)]
    case Signal => [SignalPartner]
    case Unlock => [GiveMutex]
    case _ => []
  }

  // What a thread has still to do: the rest of this iteration, and all that follow.
  function Rest(t: Thread): seq<Deed> {
    if t.at == Done then [] else Onwards(Script(), Position(t.at), t.left - 1)
  }

  function Position(p: Point): (n: nat)
    ensures n <= 5
  {
    match p
    case Lock => 0
    case In(st) => (match st case Copy => 1 case Advance => 2 case Count => 3)
    case Signal => 4
    case Unlock => 5
    case _ => 1
  }

  // Only a deed takes a thread on, by one: waiting, sleeping and being woken do not.
  predicate MovesOn(t: Thread, next: Thread, deeds: seq<Deed>) {
    if deeds == []
    then
      && next.left == t.left && (next.at == Done <==> t.at == Done)
      && (t.at != Done ==> Position(next.at) == Position(t.at))
    else
      && t.at != Done && deeds == [Script()[Position(t.at)]]
      && if Position(t.at) < 5
         then next.left == t.left && next.at != Done && Position(next.at) == Position(t.at) + 1
         else next == Loop(t.role, t.left - 1, t.data)
  }

  lemma {:induction false} StepMovesOn(s: State, a: Action, tid: nat)
    requires (forall t :: t in s.threads ==> WellFormed(t)) && Step(s, a).Some? && tid < |s.threads|
    ensures |Step(s, a).value.threads| == |s.threads|
    ensures MovesOn(s.threads[tid], Step(s, a).value.threads[tid], Deeds(tid)(s, a))
  {
    assert WellFormed(s.threads[tid]);
  }

  lemma {:induction false} DoesNext(t: Thread, next: Thread, deeds: seq<Deed>)
    requires MovesOn(t, next, deeds)
    ensures Rest(t) == deeds + Rest(next)
  {
    if deeds != [] {
      OneDeed(Script(), Position(t.at), t.left - 1);
    }
  }

  lemma {:induction false} StepDoesNext(s: State, a: Action, tid: nat)
    requires (forall t :: t in s.threads ==> WellFormed(t)) && Step(s, a).Some? && tid < |s.threads|
    ensures tid < |Step(s, a).value.threads|
    ensures Rest(s.threads[tid]) == Deeds(tid)(s, a) + Rest(Step(s, a).value.threads[tid])
  {
    StepMovesOn(s, a, tid);
    DoesNext(s.threads[tid], Step(s, a).value.threads[tid], Deeds(tid)(s, a));
  }

  function RestOf(tid: nat): State -> seq<Deed> {
    (s: State) => if tid < |s.threads| then Rest(s.threads[tid]) else []
  }

  lemma {:induction false} SameThreads(s: State, run: seq<Action>)
    requires Exec(Step, s, run).Some?
    ensures |Exec(Step, s, run).value.threads| == |s.threads|
    decreases |run|
  {
    if run != [] {
      SameThreads(Step(s, run[0]).value, run[1..]);
    }
  }

  lemma {:induction false} RunDoes(s: State, run: seq<Action>, tid: nat)
    requires Inv(s) && Exec(Step, s, run).Some? && tid < |s.threads|
    ensures var n := Exec(Step, s, run).value;
            && tid < |n.threads|
            && Rest(s.threads[tid]) == Trace(Step, Deeds(tid), s, run) + Rest(n.threads[tid])
  {
    IsInductive();
    forall x, a | Inv(x) && Step(x, a).Some?
      ensures RestOf(tid)(x) == Deeds(tid)(x, a) + RestOf(tid)(Step(x, a).value)
    {
      SameThreads(x, [a]);
      if tid < |x.threads| {
        StepDoesNext(x, a, tid);
      }
    }
    Completes(Step, Inv, RestOf(tid), Deeds(tid), s, run);
    SameThreads(s, run);
  }

  lemma {:induction false} SomeRest(t: Thread)
    ensures t.at != Done ==> |Rest(t)| > 0
    ensures t.at == Done ==> Rest(t) == []
  {
  }

  // Program order: in every run each thread has done, in order, the first deeds of its loop
  // body over and over, and all of them exactly when it is done.
  lemma {:induction false} ProgramOrder(cells: seq<int>, loops: seq<(Role, nat)>, run: seq<Action>, tid: nat)
    requires |cells| > 0 && Exec(Step, Init(cells, loops), run).Some? && tid < |loops|
    ensures var s := Exec(Step, Init(cells, loops), run).value;
            var done, all := Trace(Step, Deeds(tid), Init(cells, loops), run), Repeat(Script(), loops[tid].1);
            && done <= all
            && tid < |s.threads| && (s.threads[tid].at == Done <==> done == all)
  {
    InitInv(cells, loops);
    RunDoes(Init(cells, loops), run, tid);
    assert Script()[0..] == Script();
    SomeRest(Exec(Step, Init(cells, loops), run).value.threads[tid]);
  }
}
