// producer_s.c and consumer_s.c: any number of producers and consumers over the atomic
// semaphores of semlib.c. This is the middle level of the refinement chain.
module AtomicProdCons {
  import opened Options
  import opened Runs
  import opened Sums
  import opened RingBuffer
  import opened Body
  import opened Program
  import opened Workload
  import Semlib
  import BoundedQueue

  datatype State = State(sval: Table<int>, threads: seq<Thread>, mem: Memory)

  // Thread tid takes its next step; v is the value rand() yields should it copy.
  datatype Action = Act(tid: nat, v: int)

  function Step(s: State, a: Action): Option<State> {
    if a.tid >= |s.threads| then None
    else
      var t := s.threads[a.tid];
      match t.at
      case Done => None
      case AtWait(k) => Called(s, a.tid, Semlib.Step(s.sval.At(k), Semlib.SemWait))
      case AtPost(k) => Called(s, a.tid, Semlib.Step(s.sval.At(k), Semlib.SemPost))
      case In(_) =>
        var (next, mem) := AfterStatement(t, s.mem, a.v);
        Some(s.(threads := s.threads[a.tid := next], mem := mem))
  }

  function Called(s: State, tid: nat, result: Option<int>): Option<State>
    requires tid < |s.threads| && (s.threads[tid].at.AtWait? || s.threads[tid].at.AtPost?)
  {
    var t := s.threads[tid];
    match result
    case None => None
    case Some(v) => Some(s.(sval := s.sval.Put(t.at.k, v), threads := s.threads[tid := AfterCall(t)]))
  }

  // consumer_s.c sets EmptySem to MAX_BUF, MutexSem to 1 and FullSem to 0 first.
  function Init(cells: seq<int>, loops: seq<(Role, nat)>): State
    requires |cells| > 0
  {
    State(Table(|cells|, 0, 1),
          seq(|loops|, i requires 0 <= i < |loops| => Loop(loops[i].0, loops[i].1, 0)),
          Memory(NewRing(cells), [], []))
  }

  ghost predicate Tokens(s: State) {
    && (forall k: SemId :: s.sval.At(k) >= 0)
    && s.sval.At(Empty) + s.mem.ring.counter + Sum(s.threads, SlotHeld) == |s.mem.ring.buf|
    && s.mem.ring.counter == s.sval.At(Full) + Sum(s.threads, ItemHeld)
    && s.sval.At(Mutex) + Sum(s.threads, Inside) == 1
  }

  ghost predicate Data(s: State) {
    && Consistent(s.mem, Sum(s.threads, InAhead), Sum(s.threads, OutAhead))
    && forall t :: t in s.threads && t.at.In? ==> Ready(t.role, t.at.st, t.data, s.mem)
  }

  ghost predicate Inv(s: State) {
    && (forall t :: t in s.threads ==> WellFormed(t))
    && Tokens(s)
    && Data(s)
  }

  // One thread moves to t: what happens to the sums the invariant counts.
  lemma {:induction false} Moved(ts: seq<Thread>, tid: nat, t: Thread)
    requires tid < |ts|
    ensures forall w :: w in {SlotHeld, ItemHeld, Inside, InAhead, OutAhead, ToProduce, ToConsume} ==>
                          Sum(ts[tid := t], w) == Sum(ts, w) - w(ts[tid]) + w(t)
  {
    forall w | w in {SlotHeld, ItemHeld, Inside, InAhead, OutAhead, ToProduce, ToConsume}
      ensures Sum(ts[tid := t], w) == Sum(ts, w) - w(ts[tid]) + w(t)
    {
      Update(ts, tid, t, w);
    }
  }

  lemma {:induction false} Bounds(s: State, i: nat)
    requires i < |s.threads|
    ensures Sum(s.threads, SlotHeld) >= SlotHeld(s.threads[i])
    ensures Sum(s.threads, ItemHeld) >= ItemHeld(s.threads[i])
  {
    AtLeast(s.threads, i, SlotHeld);
    AtLeast(s.threads, i, ItemHeld);
  }

  // Mutual exclusion: a thread inside the critical section is the only one.
  lemma {:induction false} Exclusion(s: State, i: nat, j: nat)
    requires Tokens(s) && i < |s.threads| && j < |s.threads|
    requires Inside(s.threads[i]) == 1 && Inside(s.threads[j]) == 1
    ensures i == j
  {
    if i < j {
      AtLeastTwo(s.threads, i, j, Inside);
    } else if j < i {
      AtLeastTwo(s.threads, j, i, Inside);
    }
  }

  lemma {:induction false} OnlyAhead(s: State, i: nat)
    requires Tokens(s) && i < |s.threads| && Inside(s.threads[i]) == 1
    ensures forall j: nat :: j < |s.threads| && j != i ==> !s.threads[j].at.In?
    ensures Sum(s.threads, InAhead) == InAhead(s.threads[i])
    ensures Sum(s.threads, OutAhead) == OutAhead(s.threads[i])
  {
    forall j: nat | j < |s.threads| && j != i ensures Inside(s.threads[j]) == 0 {
      if Inside(s.threads[j]) == 1 {
        Exclusion(s, i, j);
      }
    }
    OnlyOne(s.threads, i, InAhead);
    OnlyOne(s.threads, i, OutAhead);
  }

  // A call moves one token between a semaphore and the thread.
  lemma {:induction false} CallWeights(t: Thread)
    requires WellFormed(t) && (t.at.AtWait? || t.at.AtPost?)
    ensures var u := AfterCall(t); var change := if t.at.AtWait? then 1 else -1;
            && SlotHeld(u) - SlotHeld(t) == (if t.at.k == Empty then change else 0)
            && ItemHeld(u) - ItemHeld(t) == (if t.at.k == Full then change else 0)
            && Inside(u) - Inside(t) == (if t.at.k == Mutex then change else 0)
  {
  }

  lemma {:induction false} CallTokens(s: State, a: Action)
    requires (forall t :: t in s.threads ==> WellFormed(t)) && Tokens(s) && Step(s, a).Some?
    requires !s.threads[a.tid].at.In?
    ensures Tokens(Step(s, a).value)
  {
    var t := s.threads[a.tid];
    Moved(s.threads, a.tid, AfterCall(t));
    assert WellFormed(t);
    CallWeights(t);
  }

  lemma {:induction false} StatementTokens(s: State, a: Action)
    requires Tokens(s) && Step(s, a).Some? && s.threads[a.tid].at.In?
    ensures Tokens(Step(s, a).value)
  {
    Moved(s.threads, a.tid, AfterStatement(s.threads[a.tid], s.mem, a.v).0);
  }

  lemma {:induction false} StepTokens(s: State, a: Action)
    requires (forall t :: t in s.threads ==> WellFormed(t)) && Tokens(s) && Step(s, a).Some?
    ensures Tokens(Step(s, a).value)
  {
    if s.threads[a.tid].at.In? {
      StatementTokens(s, a);
    } else {
      CallTokens(s, a);
    }
  }

  // A semaphore call touches no data; entering the critical section finds what it needs.
  // A thread entering the critical section finds room, or an item: its token says so.
  lemma {:induction false} EnterReady(s: State, i: nat)
    requires Tokens(s) && s.mem.consumed <= s.mem.produced
    requires s.mem.ring.counter == |s.mem.produced| - |s.mem.consumed|
    requires i < |s.threads| && s.threads[i].at == In(Copy)
    ensures Ready(s.threads[i].role, Copy, s.threads[i].data, s.mem)
  {
    Bounds(s, i);
  }

  lemma {:induction false} CallKeepsAhead(s: State, a: Action)
    requires Step(s, a).Some? && !s.threads[a.tid].at.In?
    ensures var n := Step(s, a).value;
            && Sum(n.threads, InAhead) == Sum(s.threads, InAhead)
            && Sum(n.threads, OutAhead) == Sum(s.threads, OutAhead)
  {
    Update(s.threads, a.tid, AfterCall(s.threads[a.tid]), InAhead);
    Update(s.threads, a.tid, AfterCall(s.threads[a.tid]), OutAhead);
  }

  lemma {:induction false} CallKeepsData(s: State, a: Action)
    requires Inv(s) && Step(s, a).Some? && !s.threads[a.tid].at.In?
    ensures Data(Step(s, a).value)
  {
    var n := Step(s, a).value;
    CallKeepsAhead(s, a);
    StepTokens(s, a);
    forall u | u in n.threads && u.at.In? ensures Ready(u.role, u.at.st, u.data, n.mem) {
      var i: nat :| i < |n.threads| && n.threads[i] == u;
      if i == a.tid {
        EnterReady(n, i);
      } else {
        assert u in s.threads;
      }
    }
  }

  lemma {:induction false} StatementKeepsData(s: State, a: Action)
    requires Inv(s) && Step(s, a).Some? && s.threads[a.tid].at.In?
    ensures Data(Step(s, a).value)
  {
    var n := Step(s, a).value;
    OnlyAhead(s, a.tid);
    StatementKeepsConsistent(s, a);
    forall u | u in n.threads && u.at.In? ensures Ready(u.role, u.at.st, u.data, n.mem) {
      assert u == n.threads[a.tid];
    }
  }

  lemma {:induction false} StatementKeepsConsistent(s: State, a: Action)
    requires Inv(s) && Step(s, a).Some? && s.threads[a.tid].at.In?
    ensures var n := Step(s, a).value; var t := n.threads[a.tid];
            && Consistent(n.mem, Sum(n.threads, InAhead), Sum(n.threads, OutAhead))
            && (t.at.In? ==> Ready(t.role, t.at.st, t.data, n.mem))
  {
    var t := s.threads[a.tid];
    var next := AfterStatement(t, s.mem, a.v).0;
    Update(s.threads, a.tid, next, InAhead);
    Update(s.threads, a.tid, next, OutAhead);
    OnlyAhead(s, a.tid);
    if t.role == Producer {
      ProducerKeeps(t.at.st, t.data, s.mem, a.v, 0);
    } else {
      ConsumerKeeps(t.at.st, t.data, s.mem, a.v, 0);
    }
  }

  lemma {:induction false} StepInv(s: State, a: Action)
    requires Inv(s) && Step(s, a).Some?
    ensures Inv(Step(s, a).value)
  {
    StepTokens(s, a);
    if s.threads[a.tid].at.In? {
      StatementKeepsData(s, a);
    } else {
      CallKeepsData(s, a);
    }
    var n := Step(s, a).value;
    forall u | u in n.threads ensures WellFormed(u) {
      var i: nat :| i < |n.threads| && n.threads[i] == u;
      assert WellFormed(s.threads[i]);
    }
  }

  lemma {:induction false} InitInv(cells: seq<int>, loops: seq<(Role, nat)>)
    requires |cells| > 0
    ensures Inv(Init(cells, loops))
  {
    var s := Init(cells, loops);
    forall w | w in {SlotHeld, ItemHeld, Inside, InAhead, OutAhead} ensures Sum(s.threads, w) == 0 {
      AllZero(s.threads, w);
    }
  }

  lemma {:induction false} IsInductive()
    ensures Inductive(Step, Inv)
  {
    forall s, a | Inv(s) && Step(s, a).Some? ensures Inv(Step(s, a).value) {
      StepInv(s, a);
    }
  }

  // The whole program is a bounded queue: its atomic points are the counter updates.
  function QueueAbs(s: State): BoundedQueue.Queue {
    QueueOf(s.mem)
  }

  function QueueEffect(s: State, a: Action): seq<BoundedQueue.Event> {
    if a.tid < |s.threads| && s.threads[a.tid].at.In?
    then var t := s.threads[a.tid]; QueueOp(t.role, t.at.st, t.data)
    else []
  }

  lemma {:induction false} StepRefinesQueue(s: State, a: Action)
    requires Inv(s) && Step(s, a).Some?
    ensures Exec(BoundedQueue.Step, QueueAbs(s), QueueEffect(s, a)) == Some(QueueAbs(Step(s, a).value))
  {
    var t := s.threads[a.tid];
    if t.at.In? {
      StatementRefinesQueue(t.role, t.at.st, t.data, s.mem, a.v);
    }
  }

  // The queue is fed, in order, with the values the producers' copies were given.
  lemma {:induction false} RunRefinesQueue(s: State, run: seq<Action>)
    requires Inv(s) && Exec(Step, s, run).Some?
    ensures Exec(BoundedQueue.Step, QueueAbs(s), Trace(Step, QueueEffect, s, run))
         == Some(QueueAbs(Exec(Step, s, run).value))
    ensures Generated(Exec(Step, s, run).value) == Generated(s) + Trace(Step, Generates, s, run)
  {
    RunGenerates(s, run);
    IsInductive();
    forall x, a | Inv(x) && Step(x, a).Some?
      ensures Exec(BoundedQueue.Step, QueueAbs(x), QueueEffect(x, a)) == Some(QueueAbs(Step(x, a).value))
    {
      StepRefinesQueue(x, a);
    }
    Simulation(Step, Inv, BoundedQueue.Step, QueueAbs, QueueEffect, s, run);
  }

  // A producer stores what rand() gave it, in the cell at in.
  lemma {:induction false} CopyStores(s: State, a: Action)
    requires a.tid < |s.threads| && s.threads[a.tid].role == Producer && s.threads[a.tid].at == In(Copy)
    ensures Step(s, a).Some?
    ensures var n := Step(s, a).value;
            && n.threads[a.tid].data == a.v
            && n.mem.ring == s.mem.ring.(buf := s.mem.ring.buf[s.mem.ring.inIdx := a.v])
  {
  }

  // The value an action generates.
  function Generates(s: State, a: Action): seq<int> {
    if a.tid < |s.threads| && s.threads[a.tid].role == Producer && s.threads[a.tid].at == In(Copy) then [a.v] else []
  }

  function Generated(s: State): seq<int> {
    s.mem.produced + Gather(s.threads, Held)
  }

  lemma {:induction false} StatementGenerates(s: State, a: Action)
    requires Tokens(s) && Step(s, a).Some? && s.threads[a.tid].at.In?
    ensures Generated(Step(s, a).value) == Generated(s) + Generates(s, a)
  {
    var n := Step(s, a).value;
    OnlyAhead(s, a.tid);
    GatherOne(s.threads, a.tid, Held);
    GatherOne(n.threads, a.tid, Held);
  }

  lemma {:induction false} StepGenerates(s: State, a: Action)
    requires Tokens(s) && Step(s, a).Some?
    ensures Generated(Step(s, a).value) == Generated(s) + Generates(s, a)
  {
    if s.threads[a.tid].at.In? {
      StatementGenerates(s, a);
    } else {
      SameGather(s.threads, Step(s, a).value.threads, Held, Held);
    }
  }

  lemma {:induction false} HeldByOne(s: State)
    requires Tokens(s)
    ensures |Gather(s.threads, Held)| <= 1
  {
    if i: nat :| i < |s.threads| && s.threads[i].at.In? {
      OnlyAhead(s, i);
      GatherOne(s.threads, i, Held);
    } else {
      GatherNothing(s.threads, Held);
    }
  }

  lemma {:induction false} RunGenerates(s: State, run: seq<Action>)
    requires Inv(s) && Exec(Step, s, run).Some?
    ensures Inv(Exec(Step, s, run).value)
    ensures Generated(Exec(Step, s, run).value) == Generated(s) + Trace(Step, Generates, s, run)
  {
    IsInductive();
    forall x, a | Inv(x) && Step(x, a).Some?
      ensures Generated(Step(x, a).value) == Generated(x) + Generates(x, a)
    {
      StepGenerates(x, a);
    }
    Accumulates(Step, Inv, Generated, Generates, s, run);
    Invariance(Step, Inv, s, run);
  }

  // What all loops together put in and take out. No step changes either number.
  function Supply(s: State): int {
    |s.mem.produced| + Sum(s.threads, ToProduce)
  }

  function Demand(s: State): int {
    |s.mem.consumed| + Sum(s.threads, ToConsume)
  }

  lemma {:induction false} StepBudget(s: State, a: Action)
    requires Inv(s) && Step(s, a).Some?
    ensures Supply(Step(s, a).value) == Supply(s) && Demand(Step(s, a).value) == Demand(s)
  {
    var t := Step(s, a).value.threads[a.tid];
    Update(s.threads, a.tid, t, ToProduce);
    Update(s.threads, a.tid, t, ToConsume);
    assert WellFormed(s.threads[a.tid]);
  }

  lemma {:induction false} RunBudget(s: State, run: seq<Action>)
    requires Inv(s) && Exec(Step, s, run).Some?
    ensures var n := Exec(Step, s, run).value;
            Supply(n) == Supply(s) && Demand(n) == Demand(s) && |n.mem.ring.buf| == |s.mem.ring.buf|
    decreases |run|
  {
    if run != [] {
      StepInv(s, run[0]);
      StepBudget(s, run[0]);
      RunBudget(Step(s, run[0]).value, run[1..]);
    }
  }

  ghost predicate Finished(s: State) {
    forall t :: t in s.threads ==> t.at == Done
  }

  ghost predicate Stuck(s: State) {
    forall a :: Step(s, a) == None
  }

  // In a stuck state every thread is done or waits at the first semaphore of its loop
  // for a token that is not there.
  lemma {:induction false} StuckThreads(s: State)
    requires Inv(s) && Stuck(s)
    ensures forall t :: t in s.threads ==>
              t.at == Done || (t.at == AtWait(First(t.role)) && s.sval.At(First(t.role)) == 0)
  {
    forall t | t in s.threads ensures t.at == Done || (t.at.AtWait? && s.sval.At(t.at.k) == 0) {
      var i: nat :| i < |s.threads| && s.threads[i] == t;
      assert Step(s, Act(i, 0)) == None;
    }
    AllZero(s.threads, Inside);
  }

  // The token-counting argument: a stuck program has run all its loops.
  lemma {:induction false} StuckIsFinished(s: State)
    requires Inv(s) && Stuck(s) && Balanced(Supply(s), Demand(s), |s.mem.ring.buf|)
    ensures Finished(s)
  {
    StuckThreads(s);
    AllZero(s.threads, SlotHeld);
    AllZero(s.threads, ItemHeld);
    forall i: nat | i < |s.threads| ensures s.threads[i].at == Done {
      if s.threads[i].at != Done {
        assert WellFormed(s.threads[i]);
        if s.threads[i].role == Producer {
          AtLeast(s.threads, i, ToProduce);
          AllZero(s.threads, ToConsume);
        } else {
          AtLeast(s.threads, i, ToConsume);
          AllZero(s.threads, ToProduce);
        }
        assert false;
      }
    }
  }

  // Conversely, a program that has run all its loops was balanced, and has settled.
  lemma {:induction false} FinishedIsBalanced(s: State)
    requires Inv(s) && Finished(s)
    ensures Settled(s.mem, Supply(s), Demand(s))
    ensures Balanced(Supply(s), Demand(s), |s.mem.ring.buf|)
  {
    forall w | w in {ToProduce, ToConsume, InAhead, OutAhead} ensures Sum(s.threads, w) == 0 {
      forall t | t in s.threads ensures w(t) == 0 {
        assert WellFormed(t);
      }
      AllZero(s.threads, w);
    }
    AllCountedIsSettled(s.mem, Supply(s), Demand(s));
  }

  lemma {:induction false} InitBudget(cells: seq<int>, loops: seq<(Role, nat)>)
    requires |cells| > 0
    ensures Supply(Init(cells, loops)) == Sum(loops, ProducerLoops)
    ensures Demand(Init(cells, loops)) == Sum(loops, ConsumerLoops)
  {
    var s := Init(cells, loops);
    SameSum(s.threads, loops, ToProduce, ProducerLoops);
    SameSum(s.threads, loops, ToConsume, ConsumerLoops);
  }
}
