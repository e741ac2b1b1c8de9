// Whole-run theorems for producer_s.c and consumer_s.c over atomic semaphores: termination
// and when all threads finish.
module AtomicTheorems {
  import opened Options
  import opened Runs
  import opened Sums
  import opened RingBuffer
  import opened Body
  import opened Program
  import opened Workload
  import opened AtomicProdCons

  // Steps a thread has still to take, 7 for each iteration.
  function ThreadRank(t: Thread): int {
    7 * t.left -
    match t.at
    case AtWait(k) => if k == Mutex then 1 else 0
    case In(st) => (match st case Copy => 2 case Advance => 3 case Count => 4)
    case AtPost(k) => if k == Mutex then 5 else 6
    case Done => 0
  }

  function Rank(s: State): int {
    Sum(s.threads, ThreadRank)
  }

  lemma {:induction false} ThreadGoesOn(t: Thread, m: Memory, v: int)
    requires WellFormed(t)
    ensures t.at.AtWait? || t.at.AtPost? ==> ThreadRank(AfterCall(t)) == ThreadRank(t) - 1
    ensures t.at.In? ==> ThreadRank(AfterStatement(t, m, v).0) == ThreadRank(t) - 1
  {
  }

  lemma {:induction false} StepRank(s: State, a: Action)
    requires Inv(s) && Step(s, a).Some?
    ensures Rank(Step(s, a).value) == Rank(s) - 1
  {
    var t := s.threads[a.tid];
    ThreadGoesOn(t, s.mem, a.v);
    Update(s.threads, a.tid, Step(s, a).value.threads[a.tid], ThreadRank);
  }

  lemma {:induction false} RankIsNat(s: State)
    requires Inv(s)
    ensures Rank(s) >= 0
  {
    forall t | t in s.threads ensures ThreadRank(t) >= 0 {
      assert WellFormed(t);
    }
    NonNegative(s.threads, ThreadRank);
  }

  lemma {:induction false} RunRank(s: State, run: seq<Action>)
    requires Inv(s) && Exec(Step, s, run).Some?
    ensures Inv(Exec(Step, s, run).value)
    ensures |run| + Rank(Exec(Step, s, run).value) == Rank(s)
    decreases |run|
  {
    if run != [] {
      StepInv(s, run[0]);
      StepRank(s, run[0]);
      RunRank(Step(s, run[0]).value, run[1..]);
    }
  }

  lemma {:induction false} FinishedIffRankZero(s: State)
    requires Inv(s)
    ensures Finished(s) <==> Rank(s) == 0
  {
    forall t | t in s.threads ensures if t.at == Done then ThreadRank(t) == 0 else ThreadRank(t) > 0 {
      assert WellFormed(t);
    }
    if Finished(s) {
      AllZero(s.threads, ThreadRank);
    } else {
      var i: nat :| i < |s.threads| && s.threads[i].at != Done;
      AtLeast(s.threads, i, ThreadRank);
    }
  }

  // Termination: every run has at most 7 steps for each loop iteration, and exactly as many
  // when all threads are done.
  lemma {:induction false} Termination(cells: seq<int>, loops: seq<(Role, nat)>, run: seq<Action>)
    requires |cells| > 0 && Exec(Step, Init(cells, loops), run).Some?
    ensures |run| <= 7 * (Sum(loops, ProducerLoops) + Sum(loops, ConsumerLoops))
    ensures |run| == 7 * (Sum(loops, ProducerLoops) + Sum(loops, ConsumerLoops))
       <==> Finished(Exec(Step, Init(cells, loops), run).value)
  {
    InitInv(cells, loops);
    StartRank(Init(cells, loops).threads, loops, ThreadRank, 7);
    RunRank(Init(cells, loops), run);
    RankIsNat(Exec(Step, Init(cells, loops), run).value);
    FinishedIffRankZero(Exec(Step, Init(cells, loops), run).value);
  }

  // The items produced are the values the producers' copies were given, in order, but for at
  // most one copy not counted yet.
  lemma {:induction false} RunProducesGenerated(cells: seq<int>, loops: seq<(Role, nat)>, run: seq<Action>)
    requires |cells| > 0 && Exec(Step, Init(cells, loops), run).Some?
    ensures var s := Exec(Step, Init(cells, loops), run).value;
            && Trace(Step, Generates, Init(cells, loops), run) == s.mem.produced + Gather(s.threads, Held)
            && |Gather(s.threads, Held)| <= 1
            && (Finished(s) ==> Gather(s.threads, Held) == [])
  {
    var s0, s := Init(cells, loops), Exec(Step, Init(cells, loops), run).value;
    InitInv(cells, loops);
    RunGenerates(s0, run);
    GatherNothing(s0.threads, Held);
    HeldByOne(s);
    if Finished(s) {
      GatherNothing(s.threads, Held);
    }
  }

  // Every maximal run ends with all threads done if and only if the loop counts are
  // balanced for the buffer, and then in a settled state.
  lemma {:induction false} MaximalRunFinishesIffBalanced(cells: seq<int>, loops: seq<(Role, nat)>, run: seq<Action>)
    requires |cells| > 0 && Exec(Step, Init(cells, loops), run).Some?
    requires Stuck(Exec(Step, Init(cells, loops), run).value)
    ensures var s := Exec(Step, Init(cells, loops), run).value;
            var supply, demand := Sum(loops, ProducerLoops), Sum(loops, ConsumerLoops);
            && (Finished(s) <==> Balanced(supply, demand, |cells|))
            && (Finished(s) ==> Settled(s.mem, supply, demand))
  {
    InitInv(cells, loops);
    InitBudget(cells, loops);
    RunRank(Init(cells, loops), run);
    RunBudget(Init(cells, loops), run);
    var s := Exec(Step, Init(cells, loops), run).value;
    if Finished(s) {
      FinishedIsBalanced(s);
    } else if Balanced(Supply(s), Demand(s), |cells|) {
      StuckIsFinished(s);
    }
  }

  // What an action of thread tid does.
  function Deeds(tid: nat): (State, Action) -> seq<Deed> {
    (s: State, a: Action) => if a.tid == tid && tid < |s.threads| then DeedAt(s.threads[tid].at) else []
  }

  function DeedAt(p: Point): seq<Deed> {
    match p case AtWait(k) => [WaitOn(k)] case In(st) => [Do(st)] case AtPost(k) => [PostOn(k)] case Done => []
  }

  // What a thread has still to do: the rest of this iteration, and all that follow.
  function Rest(t: Thread): seq<Deed> {
    if t.at == Done then [] else Onwards(Script(t.role), Position(t.at), t.left - 1)
  }

  function Position(p: Point): (n: nat)
    ensures n <= 6
  {
    match p
    case AtWait(k) => if k == Mutex then 1 else 0
    case In(st) => (match st case Copy => 2 case Advance => 3 case Count => 4)
    case AtPost(k) => if k == Mutex then 5 else 6
    case Done => 0
  }

  lemma {:induction false} ThreadMovesOn(t: Thread, m: Memory, v: int)
    requires WellFormed(t) && t.at != Done
    ensures DeedAt(t.at) == [Script(t.role)[Position(t.at)]]
    ensures var next := if t.at.In? then AfterStatement(t, m, v).0 else AfterCall(t);
            if Position(t.at) < 6
            then next.(at := t.at, data := t.data) == t && next.at != Done && Position(next.at) == Position(t.at) + 1
            else next == Loop(t.role, t.left - 1, t.data)
  {
  }

  lemma {:induction false} ThreadDoesNext(t: Thread, m: Memory, v: int)
    requires WellFormed(t) && t.at != Done
    ensures var next := if t.at.In? then AfterStatement(t, m, v).0 else AfterCall(t);
            Rest(t) == DeedAt(t.at) + Rest(next)
  {
    ThreadMovesOn(t, m, v);
    OneDeed(Script(t.role), Position(t.at), t.left - 1);
  }

  lemma {:induction false} StepDoesNext(s: State, a: Action, tid: nat)
    requires tid < |s.threads| && WellFormed(s.threads[tid]) && Step(s, a).Some?
    ensures tid < |Step(s, a).value.threads|
    ensures Rest(s.threads[tid]) == Deeds(tid)(s, a) + Rest(Step(s, a).value.threads[tid])
  {
    var t, next := s.threads[tid], Step(s, a).value.threads[tid];
    if a.tid == tid {
      assert next == if t.at.In? then AfterStatement(t, s.mem, a.v).0 else AfterCall(t);
      ThreadDoesNext(t, s.mem, a.v);
    } else {
      assert next == t && Deeds(tid)(s, a) == [];
    }
  }

  function RestOf(tid: nat): State -> seq<Deed> {
    (s: State) => if tid < |s.threads| then Rest(s.threads[tid]) else []
  }

  lemma {:induction false} SameThreads(s: State, run: seq<Action>)
    requires Exec(Step, s, run).Some?
    ensures |Exec(Step, s, run).value.threads| == |s.threads|
    decreases |run|
  {
    if run != [] {
      SameThreads(Step(s, run[0]).value, run[1..]);
    }
  }

  lemma {:induction false} RunDoes(s: State, run: seq<Action>, tid: nat)
    requires Inv(s) && Exec(Step, s, run).Some? && tid < |s.threads|
    ensures var n := Exec(Step, s, run).value;
            && tid < |n.threads|
            && Rest(s.threads[tid]) == Trace(Step, Deeds(tid), s, run) + Rest(n.threads[tid])
  {
    IsInductive();
    forall x, a | Inv(x) && Step(x, a).Some?
      ensures RestOf(tid)(x) == Deeds(tid)(x, a) + RestOf(tid)(Step(x, a).value)
    {
      SameThreads(x, [a]);
      if tid < |x.threads| {
        StepDoesNext(x, a, tid);
      }
    }
    Completes(Step, Inv, RestOf(tid), Deeds(tid), s, run);
    SameThreads(s, run);
  }

  lemma {:induction false} SomeRest(t: Thread)
    ensures t.at != Done ==> |Rest(t)| > 0
    ensures t.at == Done ==> Rest(t) == []
  {
  }

  // Program order: in every run each thread has done, in order, the first deeds of its loop
  // body over and over, and all of them exactly when it is done.
  lemma {:induction false} ProgramOrder(cells: seq<int>, loops: seq<(Role, nat)>, run: seq<Action>, tid: nat)
    requires |cells| > 0 && Exec(Step, Init(cells, loops), run).Some? && tid < |loops|
    ensures var s := Exec(Step, Init(cells, loops), run).value;
            var done := Trace(Step, Deeds(tid), Init(cells, loops), run);
            var all := Repeat(Script(loops[tid].0), loops[tid].1);
            && done <= all
            && tid < |s.threads| && (s.threads[tid].at == Done <==> done == all)
  {
    InitInv(cells, loops);
    RunDoes(Init(cells, loops), run, tid);
    assert Script(loops[tid].0)[0..] == Script(loops[tid].0);
    SomeRest(Exec(Step, Init(cells, loops), run).value.threads[tid]);
  }
}
