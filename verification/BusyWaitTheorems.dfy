// prodcons_t.c as a whole: for which buffer sizes and loop counts the missing lock does no
// harm, what goes wrong for all others, and that the busy waiting always comes to an end.
module BusyWaitTheorems {
  import opened Options
  import opened Runs
  import opened RingBuffer
  import opened Body
  import opened Workload
  import opened BusyWait
  import BoundedQueue

  // A caller can check this: one cell, one item at most, or nobody to take it.
  predicate Harmless(capacity: nat, produce: nat, consume: nat) {
    capacity == 1 || produce <= 1 || consume == 0
  }

  predicate PastPoll(t: Thread) {
    t.at.In? || t.at == Store
  }

  // A thread that has loaded the counter still finds it so.
  predicate Fresh(t: Thread, counter: int) {
    t.at == Store ==> t.loaded == counter
  }

  ghost predicate Apart(s: State, capacity: nat, produce: nat, consume: nat) {
    && Inv(s) && |s.mem.ring.buf| == capacity
    && |s.mem.produced| + s.producer.left == produce && |s.mem.consumed| + s.consumer.left == consume
    && Fresh(s.producer, s.mem.ring.counter) && Fresh(s.consumer, s.mem.ring.counter)
  }

  lemma {:induction false} NeverTogether(s: State, capacity: nat, produce: nat, consume: nat)
    requires Apart(s, capacity, produce, consume) && Harmless(capacity, produce, consume)
    ensures !(PastPoll(s.producer) && PastPoll(s.consumer))
  {
  }

  lemma {:induction false} StepApart(s: State, a: Action, capacity: nat, produce: nat, consume: nat)
    requires Apart(s, capacity, produce, consume) && Harmless(capacity, produce, consume) && Step(s, a).Some?
    ensures Clean(s, a) && Apart(Step(s, a).value, capacity, produce, consume)
  {
    NeverTogether(s, capacity, produce, consume);
    CleanStepInv(s, a);
    StepBudget(s, a);
    StepFresh(s, a);
  }

  lemma {:induction false} StepFresh(s: State, a: Action)
    requires !(PastPoll(s.producer) && PastPoll(s.consumer)) && Step(s, a).Some?
    requires Fresh(s.producer, s.mem.ring.counter) && Fresh(s.consumer, s.mem.ring.counter)
    ensures var n := Step(s, a).value;
            Fresh(n.producer, n.mem.ring.counter) && Fresh(n.consumer, n.mem.ring.counter)
  {
  }

  lemma {:induction false} RunApart(s: State, run: seq<Action>, capacity: nat, produce: nat, consume: nat)
    requires Apart(s, capacity, produce, consume) && Harmless(capacity, produce, consume)
    requires Exec(Step, s, run).Some?
    ensures CleanRun(s, run)
    decreases |run|
  {
    if run != [] {
      StepApart(s, run[0], capacity, produce, consume);
      RunApart(Step(s, run[0]).value, run[1..], capacity, produce, consume);
    }
  }

  lemma {:induction false} HarmlessIsClean(cells: seq<int>, produce: nat, consume: nat, run: seq<Action>)
    requires |cells| > 0 && Harmless(|cells|, produce, consume)
    requires Exec(Step, Init(cells, produce, consume), run).Some?
    ensures CleanRun(Init(cells, produce, consume), run)
  {
    RunApart(Init(cells, produce, consume), run, |cells|, produce, consume);
  }

  // The exact condition: the counter is right in every reachable state, for every
  // interleaving of the loads and stores, if and only if main is harmless.
  lemma {:induction false} CounterRightIffHarmless(cells: seq<int>, produce: nat, consume: nat)
    requires |cells| > 0
    ensures (forall run :: Exec(Step, Init(cells, produce, consume), run).Some? ==>
                             AlwaysRight(Init(cells, produce, consume), run))
       <==> Harmless(|cells|, produce, consume)
  {
    var s := Init(cells, produce, consume);
    if Harmless(|cells|, produce, consume) {
      forall run | Exec(Step, s, run).Some? ensures AlwaysRight(s, run) {
        HarmlessIsClean(cells, produce, consume, run);
        RightIffClean(s, run);
      }
    } else {
      var run := LostUpdate(cells, produce, consume);
      assert Exec(Step, s, run).Some? && !AlwaysRight(s, run);
    }
  }

  // Whatever is not harmless can lose an update, as the comment in the source concedes.
  lemma {:induction false} LostUpdate(cells: seq<int>, produce: nat, consume: nat) returns (run: seq<Action>)
    requires |cells| >= 2 && produce >= 2 && consume >= 1
    ensures Exec(Step, Init(cells, produce, consume), run).Some?
    ensures !AlwaysRight(Init(cells, produce, consume), run)
  {
    var p, c := Act(Producer, 7), Act(Consumer, 0);
    var s := Init(cells, produce, consume);
    ProduceOne(s, p);
    var first := [p, p, p, p] + [p];
    var filled := Exec(Step, s, first).value;
    var rest := LostFrom(filled, p, c);
    Prefix(s, first, filled, rest);
    run := first + rest;
    EndsRight(s, run);
  }

  // From every state with both threads polling and the buffer neither empty nor full, an
  // update can be lost: the producer loads the counter, the consumer takes an item in
  // between, and the producer then stores over its update.
  lemma {:induction false} LostFrom(s: State, p: Action, c: Action) returns (run: seq<Action>)
    requires p.role == Producer && s.producer.at == Poll && c.role == Consumer && s.consumer.at == Poll
    requires CountRight(s) && 0 < s.mem.ring.counter < |s.mem.ring.buf|
    ensures Exec(Step, s, run).Some?
    ensures var n := Exec(Step, s, run).value;
            n.mem.ring.counter == |n.mem.produced| - |n.mem.consumed| + 1
    ensures !AlwaysRight(s, run)
  {
    var take := [c, c, c, c] + [c];
    ProduceHalf(s, p);
    var half := Exec(Step, s, [p, p, p, p]).value;
    ConsumeOne(half, c);
    var taken := Exec(Step, half, take).value;
    One(taken, p);
    Prefix(half, take, taken, [p]);
    Prefix(s, [p, p, p, p], half, take + [p]);
    run := [p, p, p, p] + (take + [p]);
    EndsRight(s, run);
  }

  ghost predicate Overconsumes(s: State, run: seq<Action>) {
    Exec(Step, s, run).Some? &&
    var n := Exec(Step, s, run).value;
    |n.mem.consumed| > |n.mem.produced|
  }

  // The consumer can take more items than were ever produced exactly if there are two cells,
  // two items to produce and three to consume: 20 loops each on MAX_BUF cells will do.
  lemma {:induction false} OverconsumesIff(cells: seq<int>, produce: nat, consume: nat)
    requires |cells| > 0
    ensures (exists run :: Overconsumes(Init(cells, produce, consume), run))
       <==> |cells| >= 2 && produce >= 2 && consume >= 3
  {
    var s := Init(cells, produce, consume);
    if |cells| >= 2 && produce >= 2 && consume >= 3 {
      var run := Overconsume(cells, produce, consume);
      assert Overconsumes(s, run);
    } else {
      forall run ensures !Overconsumes(s, run) {
        if Exec(Step, s, run).Some? {
          NoOverconsumption(cells, produce, consume, run);
        }
      }
    }
  }

  // The producer loads the counter at 1, the consumer takes that item, the producer stores
  // 2 and not 1, and the consumer finds two items where there is one.
  lemma {:induction false} Overconsume(cells: seq<int>, produce: nat, consume: nat) returns (run: seq<Action>)
    requires |cells| >= 2 && produce >= 2 && consume >= 3
    ensures Overconsumes(Init(cells, produce, consume), run)
  {
    var p, c := Act(Producer, 7), Act(Consumer, 0);
    var s := Init(cells, produce, consume);
    var one := [c, c, c, c] + [c];
    ProduceOne(s, p);
    var s1 := Exec(Step, s, [p, p, p, p] + [p]).value;
    ProduceHalf(s1, p);
    var s2 := Exec(Step, s1, [p, p, p, p]).value;
    ConsumeOne(s2, c);
    var s3 := Exec(Step, s2, one).value;
    One(s3, p);
    var s4 := Step(s3, p).value;
    ConsumeOne(s4, c);
    var s5 := Exec(Step, s4, one).value;
    ConsumeOne(s5, c);
    Prefix(s4, one, s5, one);
    Prefix(s3, [p], s4, one + one);
    Prefix(s2, one, s3, [p] + (one + one));
    Prefix(s1, [p, p, p, p], s2, one + ([p] + (one + one)));
    run := [p, p, p, p] + [p] + ([p, p, p, p] + (one + ([p] + (one + one))));
    Prefix(s, [p, p, p, p] + [p], s1, [p, p, p, p] + (one + ([p] + (one + one))));
  }

  // With two items to consume at most, a race goes wrong in the counter only: until two are
  // produced there is nothing for it to be wrong about.
  predicate Few(s: State) {
    var p, c, counter := |s.mem.produced|, |s.mem.consumed|, s.mem.ring.counter;
    && c + s.consumer.left <= 2
    && (if s.consumer.at == Done then s.consumer.left == 0 else s.consumer.left > 0)
    && (p == 0 ==> c == 0 && counter == 0 && !PastPoll(s.consumer) && Fresh(s.producer, 0))
    && (p == 1 && c == 0 ==> counter == 1 && Fresh(s.consumer, 1))
    && (p == 1 && c > 0 ==> c == 1 && counter == 0 && !PastPoll(s.consumer))
  }

  lemma {:induction false} StepFew(s: State, a: Action)
    requires Few(s) && Step(s, a).Some?
    ensures Few(Step(s, a).value)
  {
  }

  lemma {:induction false} NoOverconsumption(cells: seq<int>, produce: nat, consume: nat, run: seq<Action>)
    requires |cells| > 0 && (|cells| < 2 || produce < 2 || consume < 3)
    requires Exec(Step, Init(cells, produce, consume), run).Some?
    ensures !Overconsumes(Init(cells, produce, consume), run)
  {
    var s := Init(cells, produce, consume);
    if Harmless(|cells|, produce, consume) {
      HarmlessIsClean(cells, produce, consume, run);
      CleanRunIsFifo(s, run);
    } else {
      forall x, a | Few(x) && Step(x, a).Some? ensures Few(Step(x, a).value) {
        StepFew(x, a);
      }
      Invariance(Step, Few, s, run);
    }
  }

  // What a bounded buffer promises.
  ghost predicate QueueRight(m: Memory) {
    m.consumed <= m.produced && |m.produced| <= |m.consumed| + |m.ring.buf|
  }

  // A caller can check this too.
  predicate Tolerable(capacity: nat, produce: nat, consume: nat) {
    Harmless(capacity, produce, consume) || (consume <= 2 && produce <= capacity + 1)
  }

  // The exact condition for the items: in all reachable states those consumed are the first
  // of those produced, and the others fit the buffer, if and only if main is tolerable. A
  // wrong counter then shows too late to matter.
  lemma {:induction false} QueueRightIffTolerable(cells: seq<int>, produce: nat, consume: nat)
    requires |cells| > 0
    ensures (forall run :: Exec(Step, Init(cells, produce, consume), run).Some? ==>
                             QueueRight(Exec(Step, Init(cells, produce, consume), run).value.mem))
       <==> Tolerable(|cells|, produce, consume)
  {
    var s := Init(cells, produce, consume);
    if Tolerable(|cells|, produce, consume) {
      forall run | Exec(Step, s, run).Some? ensures QueueRight(Exec(Step, s, run).value.mem) {
        TolerableRun(cells, produce, consume, run);
      }
    } else if consume >= 3 {
      var run := Overconsume(cells, produce, consume);
      assert !QueueRight(Exec(Step, s, run).value.mem);
    } else {
      var run := Overrun(cells, produce, consume);
      assert !QueueRight(Exec(Step, s, run).value.mem);
    }
  }

  // The consumer loads the counter at 1, the producer adds an item, the consumer stores 0 and
  // not 1, and the producer fills a buffer that holds an item already.
  lemma {:induction false} Overrun(cells: seq<int>, produce: nat, consume: nat) returns (run: seq<Action>)
    requires |cells| >= 2 && produce >= |cells| + 2 && consume >= 1
    ensures Exec(Step, Init(cells, produce, consume), run).Some?
    ensures var m := Exec(Step, Init(cells, produce, consume), run).value.mem;
            |m.produced| == |m.consumed| + |m.ring.buf| + 1
  {
    var p, c := Act(Producer, 7), Act(Consumer, 0);
    var s := Init(cells, produce, consume);
    var put := [p, p, p, p] + [p];
    ProduceOne(s, p);
    var s1 := Exec(Step, s, put).value;
    ConsumeHalf(s1, c);
    var s2 := Exec(Step, s1, [c, c, c, c]).value;
    ProduceOne(s2, p);
    var s3 := Exec(Step, s2, put).value;
    One(s3, c);
    var s4 := Step(s3, c).value;
    var rest := ProduceMany(s4, p, |cells|);
    Prefix(s3, [c], s4, rest);
    Prefix(s2, put, s3, [c] + rest);
    Prefix(s1, [c, c, c, c], s2, put + ([c] + rest));
    Prefix(s, put, s1, [c, c, c, c] + (put + ([c] + rest)));
    run := put + ([c, c, c, c] + (put + ([c] + rest)));
  }

  function Wrapped(x: int, n: int): int {
    if x < n then x else x - n
  }

  // Whether the item of the current iteration has been copied.
  predicate Copied(p: Point) {
    p == In(Advance) || p == In(Count) || p == Store
  }

  // With two items to consume and one round of the buffer to produce, the counter is right
  // until something is consumed, and from then on there is always room.
  predicate SmallCount(s: State, n: nat, produce: nat) {
    var p, c := |s.mem.produced|, |s.mem.consumed|;
    && Few(s) && |s.mem.ring.buf| == n >= 2 && p <= c + n
    && Looping(s.producer) && p + s.producer.left == produce <= n + 1
    && (c == 0 ==> s.mem.ring.counter == p && Fresh(s.producer, p) && (PastPoll(s.producer) ==> p < n))
    && (PastPoll(s.consumer) ==> c < p)
  }

  predicate SmallIndex(s: State) {
    && s.mem.ring.inIdx == Wrapped(|s.mem.produced| + AheadAt(s.producer.at), |s.mem.ring.buf|)
    && s.mem.ring.outIdx == Wrapped(|s.mem.consumed| + AheadAt(s.consumer.at), |s.mem.ring.buf|)
  }

  // Only the cells of the first two items matter, and the second is written once.
  predicate SmallData(m: Memory, producer: Thread, consumer: Thread) {
    var n, p, c := |m.ring.buf|, |m.produced|, |m.consumed|;
    && n >= 2 && p <= 2 * n - 1
    && m.consumed <= m.produced
    && (c == 0 && p > 0 ==> m.ring.buf[0] == m.produced[0])
    && (p > 1 ==> m.ring.buf[1] == m.produced[1])
    && (Copied(producer.at) ==> m.ring.buf[Wrapped(p, n)] == producer.data)
    && (Copied(consumer.at) ==> c < p && consumer.data == m.produced[c])
  }

  ghost predicate Small(s: State, n: nat, produce: nat) {
    SmallCount(s, n, produce) && SmallIndex(s) && SmallData(s.mem, s.producer, s.consumer)
  }

  lemma {:induction false} NextIndex(x: int, n: int)
    requires 0 <= x < n
    ensures (x + 1) % n == if x + 1 < n then x + 1 else 0
  {
    UniqueMod(x + 1, n, if x + 1 < n then 0 else 1, if x + 1 < n then x + 1 else 0);
  }

  lemma {:induction false} StepSmallCount(s: State, a: Action, n: nat, produce: nat)
    requires SmallCount(s, n, produce) && Step(s, a).Some?
    ensures SmallCount(Step(s, a).value, n, produce)
  {
    StepFew(s, a);
  }

  lemma {:induction false} ProducerSmallIndex(s: State, a: Action, n: nat, produce: nat)
    requires SmallCount(s, n, produce) && SmallIndex(s) && a.role == Producer && Step(s, a).Some?
    ensures SmallIndex(Step(s, a).value)
  {
    NextIndex(s.mem.ring.inIdx, n);
  }

  lemma {:induction false} ConsumerSmallIndex(s: State, a: Action, n: nat, produce: nat)
    requires SmallCount(s, n, produce) && SmallIndex(s) && a.role == Consumer && Step(s, a).Some?
    ensures SmallIndex(Step(s, a).value)
  {
    NextIndex(s.mem.ring.outIdx, n);
  }

  lemma {:induction false} ProducerSmallData(s: State, a: Action, n: nat, produce: nat)
    requires Small(s, n, produce) && a.role == Producer && Step(s, a).Some?
    ensures var t := Step(s, a).value; SmallData(t.mem, t.producer, t.consumer)
  {
  }

  lemma {:induction false} ConsumerSmallData(s: State, a: Action, n: nat, produce: nat)
    requires Small(s, n, produce) && a.role == Consumer && Step(s, a).Some?
    ensures var t := Step(s, a).value; SmallData(t.mem, t.producer, t.consumer)
  {
  }

  lemma {:induction false} StepSmall(s: State, a: Action, n: nat, produce: nat)
    requires Small(s, n, produce) && Step(s, a).Some?
    ensures Small(Step(s, a).value, n, produce)
  {
    StepSmallCount(s, a, n, produce);
    if a.role == Producer {
      ProducerSmallIndex(s, a, n, produce);
      ProducerSmallData(s, a, n, produce);
    } else {
      ConsumerSmallIndex(s, a, n, produce);
      ConsumerSmallData(s, a, n, produce);
    }
  }

  lemma {:induction false} TolerableRun(cells: seq<int>, produce: nat, consume: nat, run: seq<Action>)
    requires |cells| > 0 && Tolerable(|cells|, produce, consume)
    requires Exec(Step, Init(cells, produce, consume), run).Some?
    ensures QueueRight(Exec(Step, Init(cells, produce, consume), run).value.mem)
  {
    var s, n := Init(cells, produce, consume), |cells|;
    if Harmless(n, produce, consume) {
      HarmlessIsClean(cells, produce, consume, run);
      CleanRunIsFifo(s, run);
    } else {
      var small := x => Small(x, n, produce);
      forall x, a | small(x) && Step(x, a).Some? ensures small(Step(x, a).value) {
        StepSmall(x, a, n, produce);
      }
      Invariance(Step, small, s, run);
    }
  }

  // The value an action generates, and the item the producer has not counted yet.
  function Generates(s: State, a: Action): seq<int> {
    if a.role == Producer && s.producer.at == In(Copy) then [a.v] else []
  }

  function Held(t: Thread): seq<int> {
    if Copied(t.at) then [t.data] else []
  }

  function Generated(s: State): seq<int> {
    s.mem.produced + Held(s.producer)
  }

  // In every run, races included, the items produced are the values the producer's copies
  // were given, in order, but for a copy not counted yet: only consumers see wrong items.
  lemma {:induction false} RunProducesGenerated(cells: seq<int>, produce: nat, consume: nat, run: seq<Action>)
    requires |cells| > 0 && Exec(Step, Init(cells, produce, consume), run).Some?
    ensures var s := Exec(Step, Init(cells, produce, consume), run).value;
            Trace(Step, Generates, Init(cells, produce, consume), run) == s.mem.produced + Held(s.producer)
  {
    var all: State -> bool := s => true;
    forall x, a | all(x) && Step(x, a).Some?
      ensures Generated(Step(x, a).value) == Generated(x) + Generates(x, a)
    {
    }
    Accumulates(Step, all, Generated, Generates, Init(cells, produce, consume), run);
  }

  // ---- the end of the loops, without fairness

  // Busy waiting: the thread finds the buffer full, or empty, and nothing changes.
  predicate Waits(s: State, a: Action) {
    Who(s, a.role).at == Poll && MustWait(a.role, s.mem.ring)
  }

  // The steps of a run that are not busy waiting.
  function Moves(s: State, run: seq<Action>): nat
    requires Exec(Step, s, run).Some?
    decreases |run|
  {
    if run == [] then 0
    else (if Waits(s, run[0]) then 0 else 1) + Moves(Step(s, run[0]).value, run[1..])
  }

  // Moves a thread has still to make, 5 for each iteration.
  function ThreadRank(t: Thread): int {
    5 * t.left -
    match t.at
    case Poll => 0
    case In(st) => (match st case Copy => 1 case Advance => 2 case Count => 3)
    case Store => 4
    case Done => 0
  }

  function Rank(s: State): int {
    ThreadRank(s.producer) + ThreadRank(s.consumer)
  }

  predicate Looping(t: Thread) {
    if t.at == Done then t.left == 0 else t.left > 0
  }

  lemma {:induction false} StepMoves(s: State, a: Action)
    requires Looping(s.producer) && Looping(s.consumer) && Step(s, a).Some?
    ensures var n := Step(s, a).value;
            && Looping(n.producer) && Looping(n.consumer)
            && if Waits(s, a) then n == s else Rank(n) == Rank(s) - 1
  {
  }

  lemma {:induction false} MovesAreRanked(s: State, run: seq<Action>)
    requires Looping(s.producer) && Looping(s.consumer) && Exec(Step, s, run).Some?
    ensures var n := Exec(Step, s, run).value;
            && Looping(n.producer) && Looping(n.consumer)
            && Moves(s, run) + Rank(n) == Rank(s)
    decreases |run|
  {
    if run != [] {
      StepMoves(s, run[0]);
      MovesAreRanked(Step(s, run[0]).value, run[1..]);
    }
  }

  predicate Finished(s: State) {
    s.producer.at == Done && s.consumer.at == Done
  }

  // Every run, clean or not, has at most 5 moves for each iteration, and as many exactly when
  // it has finished: without fairness, only for ever busy waiting can keep it from that.
  lemma {:induction false} RunMoves(cells: seq<int>, produce: nat, consume: nat, run: seq<Action>)
    requires |cells| > 0 && Exec(Step, Init(cells, produce, consume), run).Some?
    ensures Moves(Init(cells, produce, consume), run) <= 5 * (produce + consume)
    ensures Moves(Init(cells, produce, consume), run) == 5 * (produce + consume)
       <==> Finished(Exec(Step, Init(cells, produce, consume), run).value)
  {
    MovesAreRanked(Init(cells, produce, consume), run);
  }

  // Nothing but busy waiting is left.
  ghost predicate Stuck(s: State) {
    forall a :: Step(s, a).Some? ==> Waits(s, a)
  }

  // A main that runs right: it is harmless, or each of its updates runs as one step.
  predicate Undisturbed(cells: seq<int>, produce: nat, consume: nat, run: seq<Action>)
    requires |cells| > 0 && Exec(Step, Init(cells, produce, consume), run).Some?
  {
    Harmless(|cells|, produce, consume) || SingleSteps(Init(cells, produce, consume), run)
  }

  lemma {:induction false} UndisturbedIsClean(cells: seq<int>, produce: nat, consume: nat, run: seq<Action>)
    requires |cells| > 0 && Exec(Step, Init(cells, produce, consume), run).Some?
    requires Undisturbed(cells, produce, consume, run)
    ensures CleanRun(Init(cells, produce, consume), run)
  {
    if Harmless(|cells|, produce, consume) {
      HarmlessIsClean(cells, produce, consume, run);
    } else {
      SingleStepsAreClean(Init(cells, produce, consume), run);
    }
  }

  // Such a main is a bounded queue: nothing is lost, duplicated or reordered.
  lemma {:induction false} RunRefinesQueue(cells: seq<int>, produce: nat, consume: nat, run: seq<Action>)
    requires |cells| > 0 && Exec(Step, Init(cells, produce, consume), run).Some?
    requires Undisturbed(cells, produce, consume, run)
    ensures var s0, s := Init(cells, produce, consume), Exec(Step, Init(cells, produce, consume), run).value;
            && Exec(BoundedQueue.Step, BoundedQueue.Init(|cells|), Trace(Step, QueueEffect, s0, run)) ==
               Some(QueueOf(s.mem))
            && BoundedQueue.Fifo(QueueOf(s.mem))
            && AlwaysRight(s0, run)
  {
    var s0 := Init(cells, produce, consume);
    UndisturbedIsClean(cells, produce, consume, run);
    CleanRunIsFifo(s0, run);
    RightIffClean(s0, run);
    BoundedQueue.RunIsFifo(|cells|, Trace(Step, QueueEffect, s0, run));
  }

  // Both threads are never busy waiting at once.
  lemma {:induction false} StuckIsFinishedIffBalanced(s: State)
    requires Inv(s) && Stuck(s)
    ensures Finished(s) <==>
            Balanced(|s.mem.produced| + s.producer.left, |s.mem.consumed| + s.consumer.left, |s.mem.ring.buf|)
  {
    assert Step(s, Act(Producer, 0)).Some? ==> Waits(s, Act(Producer, 0));
    assert Step(s, Act(Consumer, 0)).Some? ==> Waits(s, Act(Consumer, 0));
  }

  // So such a main is left with nothing but busy waiting only when it has finished, or when
  // its loop counts are not balanced.
  lemma {:induction false} MaximalRunFinishesIffBalanced(cells: seq<int>, produce: nat, consume: nat, run: seq<Action>)
    requires |cells| > 0 && Exec(Step, Init(cells, produce, consume), run).Some?
    requires Undisturbed(cells, produce, consume, run)
    requires Stuck(Exec(Step, Init(cells, produce, consume), run).value)
    ensures var s := Exec(Step, Init(cells, produce, consume), run).value;
            && (Finished(s) <==> Balanced(produce, consume, |cells|))
            && (Finished(s) ==> Settled(s.mem, produce, consume))
  {
    UndisturbedIsClean(cells, produce, consume, run);
    CleanRunIsFifo(Init(cells, produce, consume), run);
    CleanMain(cells, produce, consume, run);
    RunBudget(Init(cells, produce, consume), run);
    StuckIsFinishedIffBalanced(Exec(Step, Init(cells, produce, consume), run).value);
  }

  // A reachable state that is not finished can move.
  lemma {:induction false} DeadlockFree(cells: seq<int>, produce: nat, consume: nat, run: seq<Action>)
    requires |cells| > 0 && Exec(Step, Init(cells, produce, consume), run).Some?
    requires Undisturbed(cells, produce, consume, run) && Balanced(produce, consume, |cells|)
    ensures var s := Exec(Step, Init(cells, produce, consume), run).value;
            Finished(s) || exists a :: Step(s, a).Some? && !Waits(s, a)
  {
    var s := Exec(Step, Init(cells, produce, consume), run).value;
    if Stuck(s) {
      MaximalRunFinishesIffBalanced(cells, produce, consume, run);
    }
  }

  // ---- the steps of the failing runs

  lemma {:induction false} Prefix(s: State, first: seq<Action>, mid: State, rest: seq<Action>)
    requires Exec(Step, s, first) == Some(mid)
    ensures Exec(Step, s, first + rest) == Exec(Step, mid, rest)
  {
    ExecConcat(Step, s, first, rest);
  }

  lemma {:induction false} EndsRight(s: State, run: seq<Action>)
    requires Exec(Step, s, run).Some?
    ensures AlwaysRight(s, run) ==> CountRight(Exec(Step, s, run).value)
    decreases |run|
  {
    if run != [] {
      EndsRight(Step(s, run[0]).value, run[1..]);
    }
  }

  // One uninterrupted iteration of the producer, the same up to its store, and one of the
  // consumer.
  lemma {:induction false} ProduceHalf(s: State, p: Action)
    requires p.role == Producer && s.producer.at == Poll && s.mem.ring.counter < |s.mem.ring.buf|
    ensures var m := s.mem.(ring := AdvanceIn(Write(s.mem.ring, p.v)));
            Exec(Step, s, [p, p, p, p]) ==
            Some(s.(mem := m, producer := Thread(Store, s.producer.left, p.v, m.ring.counter)))
  {
    var s1 := Step(s, p).value;
    var s2 := Step(s1, p).value;
    var s3 := Step(s2, p).value;
    assert [p, p, p, p][1..] == [p, p, p] && [p, p, p][1..] == [p, p] && [p, p][1..] == [p] && [p][1..] == [];
    assert Exec(Step, s3, [p]) == Step(s3, p);
    assert Exec(Step, s2, [p, p]) == Exec(Step, s3, [p]);
    assert Exec(Step, s1, [p, p, p]) == Exec(Step, s2, [p, p]);
  }

  lemma {:induction false} StoreOne(s: State, p: Action)
    requires p.role == Producer && s.producer.at == Store && Clean(s, p)
    ensures Step(s, p) ==
            Some(s.(mem := Memory(Recount(s.mem.ring, 1), s.mem.produced + [s.producer.data], s.mem.consumed),
                    producer := Loop(s.producer.left - 1, s.producer.data)))
  {
  }

  lemma {:induction false} ProduceOne(s: State, p: Action)
    requires p.role == Producer && s.producer.at == Poll && s.mem.ring.counter < |s.mem.ring.buf|
    ensures var r := AdvanceIn(Write(s.mem.ring, p.v));
            Exec(Step, s, [p, p, p, p] + [p]) ==
            Some(s.(mem := Memory(Recount(r, 1), s.mem.produced + [p.v], s.mem.consumed),
                    producer := Loop(s.producer.left - 1, p.v)))
  {
    var m := s.mem.(ring := AdvanceIn(Write(s.mem.ring, p.v)));
    var half := s.(mem := m, producer := Thread(Store, s.producer.left, p.v, m.ring.counter));
    ProduceHalf(s, p);
    Prefix(s, [p, p, p, p], half, [p]);
    One(half, p);
    StoreOne(half, p);
  }

  lemma {:induction false} One(s: State, a: Action)
    ensures Exec(Step, s, [a]) == Step(s, a)
  {
  }

  lemma {:induction false} ConsumeHalf(s: State, c: Action)
    requires c.role == Consumer && s.consumer.at == Poll && s.mem.ring.counter != 0
    ensures var d, r := Read(s.mem.ring), AdvanceOut(s.mem.ring);
            Exec(Step, s, [c, c, c, c]) ==
            Some(s.(mem := s.mem.(ring := r), consumer := Thread(Store, s.consumer.left, d, r.counter)))
  {
    var s1 := Step(s, c).value;
    var s2 := Step(s1, c).value;
    var s3 := Step(s2, c).value;
    assert [c, c, c, c][1..] == [c, c, c] && [c, c, c][1..] == [c, c] && [c, c][1..] == [c] && [c][1..] == [];
    assert Exec(Step, s3, [c]) == Step(s3, c);
    assert Exec(Step, s2, [c, c]) == Exec(Step, s3, [c]);
    assert Exec(Step, s1, [c, c, c]) == Exec(Step, s2, [c, c]);
  }

  lemma {:induction false} ConsumeOne(s: State, c: Action)
    requires c.role == Consumer && s.consumer.at == Poll && s.mem.ring.counter != 0
    ensures var d, r := Read(s.mem.ring), AdvanceOut(s.mem.ring);
            Exec(Step, s, [c, c, c, c] + [c]) ==
            Some(s.(mem := Memory(Recount(r, -1), s.mem.produced, s.mem.consumed + [d]),
                    consumer := Loop(s.consumer.left - 1, d)))
  {
    var d, r := Read(s.mem.ring), AdvanceOut(s.mem.ring);
    var half := s.(mem := s.mem.(ring := r), consumer := Thread(Store, s.consumer.left, d, r.counter));
    ConsumeHalf(s, c);
    Prefix(s, [c, c, c, c], half, [c]);
    One(half, c);
  }

  lemma {:induction false} ProduceMany(s: State, p: Action, k: nat) returns (run: seq<Action>)
    requires p.role == Producer && s.producer.left >= k && (k > 0 ==> s.producer.at == Poll)
    requires s.mem.ring.counter + k <= |s.mem.ring.buf|
    ensures Exec(Step, s, run).Some?
    ensures var n := Exec(Step, s, run).value.mem;
            |n.produced| == |s.mem.produced| + k && n.consumed == s.mem.consumed && |n.ring.buf| == |s.mem.ring.buf|
    decreases k
  {
    if k == 0 {
      run := [];
    } else {
      var first := [p, p, p, p] + [p];
      ProduceOne(s, p);
      var next := Exec(Step, s, first).value;
      var rest := ProduceMany(next, p, k - 1);
      Prefix(s, first, next, rest);
      run := first + rest;
    }
  }
}
