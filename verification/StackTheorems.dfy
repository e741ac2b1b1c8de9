// Whole-run theorems for prodcons_s.c over semlib2.c: refinement of the atomic level and
// of the bounded queue, deadlock freedom, termination, and when all threads finish.
module StackTheorems {
  import opened Options
  import opened Runs
  import opened Sums
  import opened RingBuffer
  import opened Body
  import opened Program
  import opened Workload
  import opened Stack
  import Semlib2
  import SemaphoreRefinement
  import Atomic = AtomicProdCons
  import AtomicTheorems
  import BoundedQueue

  // Every run over mutexes and condition variables is, call for call, a run over the
  // atomic semaphores, and operation for operation a run of the bounded queue, which is fed
  // with the values the producers' copies were given, in order, but for a copy not counted yet.
  lemma {:induction false} RefinementChain(cells: seq<int>, loops: seq<(Role, nat)>, run: seq<Action>)
    requires |cells| > 0 && Exec(Step, Init(cells, loops), run).Some?
    ensures var s0, s := Init(cells, loops), Exec(Step, Init(cells, loops), run).value;
            var atomicRun := Trace(Step, Effect, s0, run);
            && Exec(Atomic.Step, Atomic.Init(cells, loops), atomicRun) == Some(Abs(s))
            && Exec(BoundedQueue.Step, BoundedQueue.Init(|cells|),
                    Trace(Atomic.Step, Atomic.QueueEffect, Atomic.Init(cells, loops), atomicRun))
               == Some(QueueOf(s.mem))
            && BoundedQueue.Fifo(QueueOf(s.mem))
            && Trace(Step, Generates, s0, run) == QueueOf(s.mem).puts + Gather(s.threads, Held)
  {
    RunProducesGenerated(cells, loops, run);
    InitInv(cells, loops);
    IsInductive();
    forall x, a | Inv(x) && Step(x, a).Some?
      ensures Exec(Atomic.Step, Abs(x), Effect(x, a)) == Some(Abs(Step(x, a).value))
    {
      StepRefines(x, a);
    }
    var s0 := Init(cells, loops);
    Simulation(Step, Inv, Atomic.Step, Abs, Effect, s0, run);
    var t0, atomicRun := Atomic.Init(cells, loops), Trace(Step, Effect, s0, run);
    Atomic.RunRefinesQueue(t0, atomicRun);
    BoundedQueue.RunIsFifo(|cells|, Trace(Atomic.Step, Atomic.QueueEffect, t0, atomicRun));
  }

  function Generated(s: State): seq<int> {
    s.mem.produced + Gather(s.threads, Held)
  }

  lemma {:induction false} SameHeld(s: State)
    ensures Gather(Abs(s).threads, Held) == Gather(s.threads, Held)
    ensures Generated(s) == Atomic.Generated(Abs(s))
  {
    SameGather(Abs(s).threads, s.threads, Held, Held);
  }

  lemma {:induction false} StepGenerates(s: State, a: Action)
    requires Inv(s) && Step(s, a).Some?
    ensures Generated(Step(s, a).value) == Generated(s) + Generates(s, a)
  {
    StepRefines(s, a);
    EffectGenerates(s, a);
    SameHeld(s);
    SameHeld(Step(s, a).value);
    if Effect(s, a) != [] {
      assert Effect(s, a)[1..] == [];
      Atomic.StepGenerates(Abs(s), Effect(s, a)[0]);
    }
  }

  lemma {:induction false} EffectGenerates(s: State, a: Action)
    requires Library(s) && Step(s, a).Some?
    ensures Generates(s, a) ==
            if Effect(s, a) == [] then [] else Atomic.Generates(Abs(s), Effect(s, a)[0])
  {
    if a.Act? && !s.threads[a.tid].at.In? {
      CallerRefines(s, a);
    }
  }

  lemma {:induction false} RunGenerates(s: State, run: seq<Action>)
    requires Inv(s) && Exec(Step, s, run).Some?
    ensures Inv(Exec(Step, s, run).value)
    ensures Generated(Exec(Step, s, run).value) == Generated(s) + Trace(Step, Generates, s, run)
  {
    IsInductive();
    forall x, a | Inv(x) && Step(x, a).Some?
      ensures Generated(Step(x, a).value) == Generated(x) + Generates(x, a)
    {
      StepGenerates(x, a);
    }
    Accumulates(Step, Inv, Generated, Generates, s, run);
    Invariance(Step, Inv, s, run);
  }

  // The items produced are the values the producers' copies were given, in order, but for at
  // most one copy not counted yet.
  lemma {:induction false} RunProducesGenerated(cells: seq<int>, loops: seq<(Role, nat)>, run: seq<Action>)
    requires |cells| > 0 && Exec(Step, Init(cells, loops), run).Some?
    ensures var s := Exec(Step, Init(cells, loops), run).value;
            && Trace(Step, Generates, Init(cells, loops), run) == s.mem.produced + Gather(s.threads, Held)
            && |Gather(s.threads, Held)| <= 1
            && (Finished(s) ==> Gather(s.threads, Held) == [])
  {
    var s0, s := Init(cells, loops), Exec(Step, Init(cells, loops), run).value;
    InitInv(cells, loops);
    RunGenerates(s0, run);
    GatherNothing(s0.threads, Held);
    SameHeld(s);
    Atomic.HeldByOne(Abs(s));
    if Finished(s) {
      GatherNothing(s.threads, Held);
    }
  }

  // Program order: in every run the calls of each thread take effect, and its statements run,
  // in the order of its loop body, over and over, and all of them when it is done.
  lemma {:induction false} ProgramOrder(cells: seq<int>, loops: seq<(Role, nat)>, run: seq<Action>, tid: nat)
    requires |cells| > 0 && Exec(Step, Init(cells, loops), run).Some? && tid < |loops|
    ensures var s := Exec(Step, Init(cells, loops), run).value;
            var t0, atomicRun := Atomic.Init(cells, loops), Trace(Step, Effect, Init(cells, loops), run);
            var all := Repeat(Script(loops[tid].0), loops[tid].1);
            && Exec(Atomic.Step, t0, atomicRun).Some?
            && Trace(Atomic.Step, AtomicTheorems.Deeds(tid), t0, atomicRun) <= all
            && (Finished(s) ==> Trace(Atomic.Step, AtomicTheorems.Deeds(tid), t0, atomicRun) == all)
  {
    RefinementChain(cells, loops, run);
    AtomicTheorems.ProgramOrder(cells, loops, Trace(Step, Effect, Init(cells, loops), run), tid);
  }

  // Inside the critical section: between the two MutexSem operations taking effect.
  predicate InCritical(s: State, i: nat)
    requires i < |s.threads|
  {
    Inside(AbsThread(s, i)) == 1
  }

  // At most one thread is in the critical section, and while none is, the produced log is
  // the consumed log followed by the stored cells.
  ghost predicate Safe(s: State, capacity: nat) {
    && (forall i: nat, j: nat :: i < |s.threads| && j < |s.threads| && InCritical(s, i) && InCritical(s, j) ==> i == j)
    && s.mem.consumed <= s.mem.produced
    && 0 <= s.mem.ring.counter <= |s.mem.ring.buf| == capacity
    && ((forall i: nat :: i < |s.threads| ==> !InCritical(s, i)) ==>
         && s.mem.produced == s.mem.consumed + Stored(s.mem.ring)
         && s.mem.ring.inIdx == (s.mem.ring.outIdx + s.mem.ring.counter) % |s.mem.ring.buf|)
  }

  lemma {:induction false} QuietConservation(s: State)
    requires Inv(s) && forall i: nat :: i < |s.threads| ==> !InCritical(s, i)
    ensures s.mem.produced == s.mem.consumed + Stored(s.mem.ring)
    ensures s.mem.ring.inIdx == (s.mem.ring.outIdx + s.mem.ring.counter) % |s.mem.ring.buf|
  {
    var ts := Abs(s).threads;
    forall u | u in ts ensures Inside(u) == 0 {
      var i: nat :| i < |ts| && ts[i] == u;
      assert !InCritical(s, i);
    }
    AllZero(ts, InAhead);
    AllZero(ts, OutAhead);
    Conservation(s.mem);
  }

  lemma {:induction false} InvIsSafe(s: State)
    requires Inv(s)
    ensures Safe(s, |s.mem.ring.buf|)
  {
    forall i: nat, j: nat | i < |s.threads| && j < |s.threads| && InCritical(s, i) && InCritical(s, j) ensures i == j {
      Atomic.Exclusion(Abs(s), i, j);
    }
    if forall i: nat :: i < |s.threads| ==> !InCritical(s, i) {
      QuietConservation(s);
    }
  }

  // No step resizes the ring or changes what the loops put in and take out.
  ghost predicate Budget(s: State, supply: int, demand: int, capacity: int) {
    Inv(s) && Atomic.Supply(Abs(s)) == supply && Atomic.Demand(Abs(s)) == demand && |s.mem.ring.buf| == capacity
  }

  lemma {:induction false} StepBudget(s: State, a: Action, supply: int, demand: int, capacity: int)
    requires Budget(s, supply, demand, capacity) && Step(s, a).Some?
    ensures Budget(Step(s, a).value, supply, demand, capacity)
  {
    StepInv(s, a);
    StepRefines(s, a);
    Atomic.RunBudget(Abs(s), Effect(s, a));
  }

  lemma {:induction false} RunBudget(cells: seq<int>, loops: seq<(Role, nat)>, run: seq<Action>)
    requires |cells| > 0 && Exec(Step, Init(cells, loops), run).Some?
    ensures Budget(Exec(Step, Init(cells, loops), run).value,
                   Sum(loops, ProducerLoops), Sum(loops, ConsumerLoops), |cells|)
  {
    var supply, demand := Sum(loops, ProducerLoops), Sum(loops, ConsumerLoops);
    InitInv(cells, loops);
    Atomic.InitBudget(cells, loops);
    var budget := s => Budget(s, supply, demand, |cells|);
    forall s, a | budget(s) && Step(s, a).Some? ensures budget(Step(s, a).value) {
      StepBudget(s, a, supply, demand, |cells|);
    }
    Invariance(Step, budget, Init(cells, loops), run);
  }

  // Safety in every reachable state.
  lemma {:induction false} RunIsSafe(cells: seq<int>, loops: seq<(Role, nat)>, run: seq<Action>)
    requires |cells| > 0 && Exec(Step, Init(cells, loops), run).Some?
    ensures Safe(Exec(Step, Init(cells, loops), run).value, |cells|)
  {
    RunBudget(cells, loops, run);
    InvIsSafe(Exec(Step, Init(cells, loops), run).value);
  }

  // Token accounting in every reachable state: EmptySem plus slots in producers' hands plus
  // counter plus slots consumers have still to post is N; counter is FullSem plus items not
  // posted yet or already claimed; MutexSem plus threads in the critical section is 1.
  lemma {:induction false} RunTokens(cells: seq<int>, loops: seq<(Role, nat)>, run: seq<Action>)
    requires |cells| > 0 && Exec(Step, Init(cells, loops), run).Some?
    ensures var s := Exec(Step, Init(cells, loops), run).value;
            && s.sems.empty.sval >= 0 && s.sems.full.sval >= 0 && s.sems.mutex.sval >= 0
            && s.sems.empty.sval + Sum(Abs(s).threads, SlotHeld) + s.mem.ring.counter == |cells|
            && s.mem.ring.counter == s.sems.full.sval + Sum(Abs(s).threads, ItemHeld)
            && s.sems.mutex.sval + Sum(Abs(s).threads, Inside) == 1
  {
    RunBudget(cells, loops, run);
    var s := Exec(Step, Init(cells, loops), run).value;
    assert Abs(s).sval.At(Empty) >= 0 && Abs(s).sval.At(Full) >= 0 && Abs(s).sval.At(Mutex) >= 0;
  }

  // No lost wakeup on any of the three semaphores, in every reachable state.
  lemma {:induction false} RunLosesNoWakeup(cells: seq<int>, loops: seq<(Role, nat)>, run: seq<Action>, k: SemId)
    requires |cells| > 0 && Exec(Step, Init(cells, loops), run).Some?
    ensures var m := Exec(Step, Init(cells, loops), run).value.sems.At(k);
            Semlib2.NoLostWakeup(m) && Semlib2.MutexInv(m)
  {
    RunBudget(cells, loops, run);
  }

  ghost predicate Finished(s: State) {
    forall t :: t in s.threads ==> t.at == Done
  }

  // Nothing can happen any more, short of a spurious wakeup.
  ghost predicate Stuck(s: State) {
    forall a: Action :: a.Act? ==> Step(s, a) == None
  }

  lemma {:induction false} StuckLibrary(s: State, k: SemId)
    requires Inv(s) && Stuck(s)
    ensures s.sems.At(k).owner == None
    ensures forall i: nat :: i < |s.threads| ==> s.sems.At(k).stages[i].Idle? || s.sems.At(k).stages[i].Asleep?
    ensures Semlib2.Asleep in s.sems.At(k).stages ==> s.sems.At(k).sval == 0
  {
    var m := s.sems.At(k);
    forall t: nat, wake: nat ensures Semlib2.Step(m, Semlib2.Next(t, wake)) == None {
      if t < |m.stages| && m.stages[t] != Semlib2.Idle {
        assert Fits(s.threads[t], k, m.stages[t]);
        assert Step(s, Act(t, wake, 0)) == None;
      }
    }
    SemaphoreRefinement.StuckMeansNoToken(m);
  }

  // A state stuck at the level of mutexes is stuck at the atomic level: no thread is
  // kept asleep next to a token.
  lemma {:induction false} StuckRefines(s: State)
    requires Inv(s) && Stuck(s)
    ensures Atomic.Stuck(Abs(s))
    ensures Abs(s).threads == s.threads
  {
    forall k: SemId ensures
      && s.sems.At(k).owner == None
      && (forall i: nat :: i < |s.threads| ==> s.sems.At(k).stages[i].Idle? || s.sems.At(k).stages[i].Asleep?)
      && (Semlib2.Asleep in s.sems.At(k).stages ==> s.sems.At(k).sval == 0)
    {
      StuckLibrary(s, k);
    }
    assert Abs(s).threads == s.threads;
    forall a ensures Atomic.Step(Abs(s), a) == None {
      if a.tid < |s.threads| {
        var t := s.threads[a.tid];
        assert Step(s, Act(a.tid, 0, a.v)) == None;
        if t.at.AtWait? || t.at.AtPost? {
          assert Fits(t, t.at.k, s.sems.At(t.at.k).stages[a.tid]);
        }
      }
    }
  }

  // Deadlock freedom of the whole stack, and its exact condition: in a state where
  // nothing but spurious wakeups can happen, all threads are done if and only if the
  // loop counts were balanced.
  lemma {:induction false} StuckIsFinishedIffBalanced(s: State)
    requires Inv(s) && Stuck(s)
    ensures Finished(s) <==>
            Balanced(Atomic.Supply(Abs(s)), Atomic.Demand(Abs(s)), |s.mem.ring.buf|)
  {
    StuckRefines(s);
    if Finished(s) {
      Atomic.FinishedIsBalanced(Abs(s));
    } else if Balanced(Atomic.Supply(Abs(s)), Atomic.Demand(Abs(s)), |s.mem.ring.buf|) {
      Atomic.StuckIsFinished(Abs(s));
    }
  }

  // Termination measure: 27 for each iteration left, less what is done of the current one.
  function ThreadRank(t: Thread): int {
    27 * (t.left - 1) +
    match t.at
    case AtWait(k) => if k == Mutex then 21 else 27
    case In(st) => (match st case Copy => 15 case Advance => 14 case Count => 13)
    case AtPost(k) => if k == Mutex then 12 else 6
    case Done => 27
  }

  // Progress inside a library call. A signal pays for the wakeup it causes.
  function StageRank(g: Semlib2.Stage): int {
    match g
    case Test => -1
    case Asleep => -2
    case Dec => -2
    case Signal => -1
    case Inc => -4
    case Unlock(_) => -5
    case _ => 0
  }

  function Rank(s: State): int {
    Sum(s.threads, ThreadRank) + SemsRank(s.sems)
  }

  // A library step lowers the stage rank by one, unless it opens, closes, or is spurious.
  lemma {:induction false} LibraryRank(m: Semlib2.Sem, a: Semlib2.Action)
    requires Semlib2.Step(m, a).Some?
    requires a.Next? ==> !m.stages[a.tid].TryTest? && !m.stages[a.tid].TryDec?
    ensures var n := Semlib2.Step(m, a).value;
            var change := Sum(n.stages, StageRank) - Sum(m.stages, StageRank);
            match a
            case Begin(_, op) => change <= -1 || op.TryWait?
            case Spurious(_) => change == 2
            case Next(t, _) => change <= if n.stages[t].Idle? then 5 else -1
  {
    OwnStage(m, a);
    if a.Next? && m.stages[a.tid].Signal? && Semlib2.Asleep in m.stages {
      Update(m.stages, a.wake, Semlib2.Woken, StageRank);
      Update(m.stages[a.wake := Semlib2.Woken], a.tid, Semlib2.Inc, StageRank);
    } else {
      OneMoves(m, a);
    }
  }

  lemma {:induction false} OwnStage(m: Semlib2.Sem, a: Semlib2.Action)
    requires Semlib2.Step(m, a).Some?
    requires a.Next? ==> !m.stages[a.tid].TryTest? && !m.stages[a.tid].TryDec?
    ensures var g := Semlib2.Step(m, a).value.stages[a.tid];
            var change := StageRank(g) - StageRank(m.stages[a.tid]);
            match a
            case Begin(_, op) => change <= -1 || op.TryWait?
            case Spurious(_) => change == 2
            case Next(t, _) => change <= if g.Idle? then 5 else if m.stages[t].Signal? then -3 else -1
  {
  }

  lemma {:induction false} OneMoves(m: Semlib2.Sem, a: Semlib2.Action)
    requires Semlib2.Step(m, a).Some?
    requires !(a.Next? && m.stages[a.tid].Signal? && Semlib2.Asleep in m.stages)
    ensures var n := Semlib2.Step(m, a).value;
            Sum(n.stages, StageRank) - Sum(m.stages, StageRank) ==
            StageRank(n.stages[a.tid]) - StageRank(m.stages[a.tid])
  {
    var n := Semlib2.Step(m, a).value;
    assert n.stages == m.stages[a.tid := n.stages[a.tid]];
    Update(m.stages, a.tid, n.stages[a.tid], StageRank);
  }

  // Wakeups a run does not owe to a signal.
  function SpuriousCost(a: Action): int {
    if a.Spurious? then 3 else 0
  }

  // Rank of one thread as it goes on.
  lemma {:induction false} ThreadGoesOn(t: Thread, m: Memory, v: int)
    requires WellFormed(t)
    ensures t.at.AtWait? || t.at.AtPost? ==> ThreadRank(AfterCall(t)) == ThreadRank(t) - 6
    ensures t.at.In? ==> ThreadRank(AfterStatement(t, m, v).0) == ThreadRank(t) - 1
  {
  }

  lemma {:induction false} CallRank(s: State, a: Action)
    requires Library(s) && Step(s, a).Some? && a.Act? && !s.threads[a.tid].at.In?
    requires WellFormed(s.threads[a.tid])
    ensures Rank(Step(s, a).value) + 1 <= Rank(s)
  {
    var n := Step(s, a).value;
    var t := s.threads[a.tid];
    var m := s.sems.At(t.at.k);
    assert Fits(t, t.at.k, m.stages[a.tid]);
    var la := LibraryAction(t, m.stages[a.tid], a.tid, a.wake);
    LibraryRank(m, la);
    ThreadGoesOn(t, s.mem, a.v);
    Update(s.threads, a.tid, AfterCall(t), ThreadRank);
    TableRank(s.sems, t.at.k, Semlib2.Step(m, la).value);
  }

  function SemsRank(sems: Table<Semlib2.Sem>): int {
    Sum(sems.empty.stages, StageRank) + Sum(sems.full.stages, StageRank) + Sum(sems.mutex.stages, StageRank)
  }

  lemma {:induction false} TableRank(sems: Table<Semlib2.Sem>, k: SemId, m: Semlib2.Sem)
    ensures SemsRank(sems.Put(k, m)) - SemsRank(sems) == Sum(m.stages, StageRank) - Sum(sems.At(k).stages, StageRank)
  {
  }

  lemma {:induction false} StepRank(s: State, a: Action)
    requires Inv(s) && Step(s, a).Some?
    ensures Rank(Step(s, a).value) + 1 <= Rank(s) + SpuriousCost(a)
  {
    if a.Spurious? {
      var m := s.sems.At(a.k);
      LibraryRank(m, Semlib2.Spurious(a.tid));
      TableRank(s.sems, a.k, Semlib2.Step(m, Semlib2.Spurious(a.tid)).value);
    } else if s.threads[a.tid].at.In? {
      ThreadGoesOn(s.threads[a.tid], s.mem, a.v);
      Update(s.threads, a.tid, AfterStatement(s.threads[a.tid], s.mem, a.v).0, ThreadRank);
    } else {
      CallRank(s, a);
    }
  }

  // A thread inside a call pays for its progress there.
  lemma {:induction false} RankNonNegative(ts: seq<Thread>, e: seq<Semlib2.Stage>, f: seq<Semlib2.Stage>,
                                           m: seq<Semlib2.Stage>)
    requires |ts| == |e| == |f| == |m|
    requires forall i: nat :: i < |ts| ==>
               WellFormed(ts[i]) && Fits(ts[i], Empty, e[i]) && Fits(ts[i], Full, f[i]) && Fits(ts[i], Mutex, m[i])
    ensures Sum(ts, ThreadRank) + Sum(e, StageRank) + Sum(f, StageRank) + Sum(m, StageRank) >= 0
  {
    if ts != [] {
      RankNonNegative(ts[1..], e[1..], f[1..], m[1..]);
      assert Fits(ts[0], Empty, e[0]) && Fits(ts[0], Full, f[0]) && Fits(ts[0], Mutex, m[0]);
    }
  }

  lemma {:induction false} RankIsNat(s: State)
    requires Inv(s)
    ensures Rank(s) >= 0
  {
    RankNonNegative(s.threads, s.sems.At(Empty).stages, s.sems.At(Full).stages, s.sems.At(Mutex).stages);
  }

  lemma {:induction false} InitRank(cells: seq<int>, loops: seq<(Role, nat)>)
    requires |cells| > 0
    ensures Rank(Init(cells, loops)) == 27 * (Sum(loops, ProducerLoops) + Sum(loops, ConsumerLoops))
  {
    var s := Init(cells, loops);
    AllZero(s.sems.empty.stages, StageRank);
    AllZero(s.sems.full.stages, StageRank);
    AllZero(s.sems.mutex.stages, StageRank);
    StartRank(s.threads, loops, ThreadRank, 27);
  }

  // Termination: a run has at most 27 steps for each loop iteration, and 3 more for each
  // spurious wakeup in it. Without spurious wakeups every run is finite.
  lemma {:induction false} Termination(cells: seq<int>, loops: seq<(Role, nat)>, run: seq<Action>)
    requires |cells| > 0 && Exec(Step, Init(cells, loops), run).Some?
    ensures |run| <= 27 * (Sum(loops, ProducerLoops) + Sum(loops, ConsumerLoops)) + Sum(run, SpuriousCost)
  {
    InitInv(cells, loops);
    InitRank(cells, loops);
    IsInductive();
    forall x | Inv(x) ensures Rank(x) >= 0 {
      RankIsNat(x);
    }
    forall x, a | Inv(x) && Step(x, a).Some? ensures Rank(Step(x, a).value) + 1 <= Rank(x) + SpuriousCost(a) {
      StepRank(x, a);
    }
    Bounded(Step, Inv, Rank, SpuriousCost, Init(cells, loops), run);
  }

  // Every maximal run ends with all threads done if and only if the loop counts are
  // balanced for the buffer, and then in a settled state.
  lemma {:induction false} MaximalRunFinishesIffBalanced(cells: seq<int>, loops: seq<(Role, nat)>, run: seq<Action>)
    requires |cells| > 0 && Exec(Step, Init(cells, loops), run).Some?
    requires Stuck(Exec(Step, Init(cells, loops), run).value)
    ensures var s := Exec(Step, Init(cells, loops), run).value;
            var supply, demand := Sum(loops, ProducerLoops), Sum(loops, ConsumerLoops);
            && (Finished(s) <==> Balanced(supply, demand, |cells|))
            && (Finished(s) ==> Settled(s.mem, supply, demand))
  {
    RunBudget(cells, loops, run);
    var s := Exec(Step, Init(cells, loops), run).value;
    StuckIsFinishedIffBalanced(s);
    if Finished(s) {
      StuckRefines(s);
      Atomic.FinishedIsBalanced(Abs(s));
    }
  }

  // A reachable state that is not finished can go on without spurious wakeups.
  lemma {:induction false} DeadlockFree(cells: seq<int>, loops: seq<(Role, nat)>, run: seq<Action>)
    requires |cells| > 0 && Exec(Step, Init(cells, loops), run).Some?
    requires Balanced(Sum(loops, ProducerLoops), Sum(loops, ConsumerLoops), |cells|)
    ensures var s := Exec(Step, Init(cells, loops), run).value;
            Finished(s) || exists a: Action :: a.Act? && Step(s, a).Some?
  {
    var s := Exec(Step, Init(cells, loops), run).value;
    if forall a: Action :: a.Act? ==> Step(s, a) == None {
      MaximalRunFinishesIffBalanced(cells, loops, run);
    }
  }
}
