// prodcons_t.c: one producer and one consumer on the same ring with no lock at all. Each
// counter++ and counter-- is a load and a store, as the machine runs it.
module BusyWait {
  import opened Options
  import opened Runs
  import opened RingBuffer
  import opened Body
  import opened Workload
  import BoundedQueue

  // Poll is the busy-wait loop on Buf.counter.
  datatype Point = Poll | In(st: Statement) | Store | Done

  // loaded is the value of Buf.counter a thread read for its update.
  datatype Thread = Thread(at: Point, left: int, data: int, loaded: int)

  datatype State = State(producer: Thread, consumer: Thread, mem: Memory)

  datatype Action = Act(role: Role, v: int)

  function Loop(left: int, data: int): Thread {
    Thread(if left > 0 then Poll else Done, left, data, 0)
  }

  function Init(cells: seq<int>, produce: nat, consume: nat): State
    requires |cells| > 0
  {
    State(Loop(produce, 0), Loop(consume, 0), Memory(NewRing(cells), [], []))
  }

  function Who(s: State, role: Role): Thread {
    if role == Producer then s.producer else s.consumer
  }

  function Set(s: State, role: Role, t: Thread): State {
    if role == Producer then s.(producer := t) else s.(consumer := t)
  }

  function Change(role: Role): int {
    if role == Producer then 1 else -1
  }

  // In(Count) loads the counter; Store writes it back, changed by one.
  function Step(s: State, a: Action): Option<State> {
    var t := Who(s, a.role);
    match t.at
    case Done => None
    case Poll => Some(if MustWait(a.role, s.mem.ring) then s else Set(s, a.role, t.(at := In(Copy))))
    case In(Count) => Some(Set(s, a.role, t.(at := Store, loaded := s.mem.ring.counter)))
    case In(st) =>
      var (data, mem) := Run(a.role, st, t.data, s.mem, a.v);
      Some(Set(s, a.role, t.(at := In(if st == Copy then Advance else Count), data := data)).(mem := mem))
    case Store =>
      var counted := Run(a.role, Count, t.data, s.mem, a.v).1;
      Some(Set(s, a.role, Loop(t.left - 1, t.data))
           .(mem := counted.(ring := counted.ring.(counter := t.loaded + Change(a.role)))))
  }

  // What the counter should be.
  predicate CountRight(s: State) {
    s.mem.ring.counter == |s.mem.produced| - |s.mem.consumed|
  }

  // A store is clean if the counter still is what was loaded.
  predicate Clean(s: State, a: Action) {
    Who(s, a.role).at == Store ==> s.mem.ring.counter == Who(s, a.role).loaded
  }

  predicate CleanRun(s: State, run: seq<Action>)
    requires Exec(Step, s, run).Some?
    decreases |run|
  {
    run == [] || (Clean(s, run[0]) && CleanRun(Step(s, run[0]).value, run[1..]))
  }

  predicate AlwaysRight(s: State, run: seq<Action>)
    requires Exec(Step, s, run).Some?
    decreases |run|
  {
    CountRight(s) && (run == [] || AlwaysRight(Step(s, run[0]).value, run[1..]))
  }

  // Run by run, the counter is right all along if and only if every store finds the counter
  // as it was loaded. BusyWaitTheorems says for which main that is so in all runs.
  lemma {:induction false} RightIffClean(s: State, run: seq<Action>)
    requires Exec(Step, s, run).Some? && CountRight(s)
    ensures AlwaysRight(s, run) <==> CleanRun(s, run)
    decreases |run|
  {
    if run != [] {
      var next := Step(s, run[0]).value;
      assert CountRight(next) <==> Clean(s, run[0]);
      if CountRight(next) {
        RightIffClean(next, run[1..]);
      }
    }
  }

  // Whether a thread has moved its index ahead of the counter.
  function AheadAt(p: Point): int {
    if p == In(Count) || p == Store then 1 else 0
  }

  ghost predicate ThreadReady(role: Role, t: Thread, m: Memory)
    requires m.consumed <= m.produced
  {
    && (t.at.In? ==> Ready(role, t.at.st, t.data, m))
    && (t.at == Store ==> Ready(role, Count, t.data, m))
    && (if t.at == Done then t.left == 0 else t.left > 0)
  }

  ghost predicate Inv(s: State) {
    && Consistent(s.mem, AheadAt(s.producer.at), AheadAt(s.consumer.at))
    && ThreadReady(Producer, s.producer, s.mem)
    && ThreadReady(Consumer, s.consumer, s.mem)
  }

  lemma {:induction false} ProducerStepInv(s: State, a: Action)
    requires Inv(s) && a.role == Producer && Clean(s, a) && Step(s, a).Some?
    ensures Inv(Step(s, a).value)
  {
    var t := s.producer;
    if t.at == Store {
      ProducerKeeps(Count, t.data, s.mem, a.v, AheadAt(s.consumer.at));
    } else if t.at.In? {
      ProducerKeeps(t.at.st, t.data, s.mem, a.v, AheadAt(s.consumer.at));
    }
  }

  lemma {:induction false} ConsumerStepInv(s: State, a: Action)
    requires Inv(s) && a.role == Consumer && Clean(s, a) && Step(s, a).Some?
    ensures Inv(Step(s, a).value)
  {
    var t := s.consumer;
    if t.at == Store {
      ConsumerKeeps(Count, t.data, s.mem, a.v, AheadAt(s.producer.at));
    } else if t.at.In? {
      ConsumerKeeps(t.at.st, t.data, s.mem, a.v, AheadAt(s.producer.at));
    }
  }

  // The queue operation an action performs: its store.
  function QueueEffect(s: State, a: Action): seq<BoundedQueue.Event> {
    var t := Who(s, a.role);
    if t.at == Store then QueueOp(a.role, Count, t.data) else []
  }

  lemma {:induction false} CleanStepRefines(s: State, a: Action)
    requires Inv(s) && Clean(s, a) && Step(s, a).Some?
    ensures Exec(BoundedQueue.Step, QueueOf(s.mem), QueueEffect(s, a)) == Some(QueueOf(Step(s, a).value.mem))
  {
    var t := Who(s, a.role);
    if t.at == Store {
      StatementRefinesQueue(a.role, Count, t.data, s.mem, a.v);
    }
  }

  lemma {:induction false} CleanStepInv(s: State, a: Action)
    requires Inv(s) && Clean(s, a) && Step(s, a).Some?
    ensures Inv(Step(s, a).value)
  {
    if a.role == Producer {
      ProducerStepInv(s, a);
    } else {
      ConsumerStepInv(s, a);
    }
  }

  // A clean run, at every interleaving of its reads, index and count steps, is a run of the
  // bounded queue, and nothing is lost, duplicated or reordered in it.
  lemma {:induction false} CleanRunIsFifo(s: State, run: seq<Action>)
    requires Inv(s) && Exec(Step, s, run).Some? && CleanRun(s, run)
    ensures Inv(Exec(Step, s, run).value)
    ensures Exec(BoundedQueue.Step, QueueOf(s.mem), Trace(Step, QueueEffect, s, run))
         == Some(QueueOf(Exec(Step, s, run).value.mem))
    decreases |run|
  {
    if run != [] {
      var next := Step(s, run[0]).value;
      CleanStepInv(s, run[0]);
      CleanStepRefines(s, run[0]);
      CleanRunIsFifo(next, run[1..]);
      ExecConcat(BoundedQueue.Step, QueueOf(s.mem), QueueEffect(s, run[0]), Trace(Step, QueueEffect, next, run[1..]));
    }
  }

  lemma {:induction false} StepBudget(s: State, a: Action)
    requires Step(s, a).Some?
    ensures var n := Step(s, a).value;
            && |n.mem.produced| + n.producer.left == |s.mem.produced| + s.producer.left
            && |n.mem.consumed| + n.consumer.left == |s.mem.consumed| + s.consumer.left
            && |n.mem.ring.buf| == |s.mem.ring.buf|
  {
  }

  // No step changes what the loops produce and consume in all, nor the size of the buffer.
  lemma {:induction false} RunBudget(s: State, run: seq<Action>)
    requires Exec(Step, s, run).Some?
    ensures var n := Exec(Step, s, run).value;
            && |n.mem.produced| + n.producer.left == |s.mem.produced| + s.producer.left
            && |n.mem.consumed| + n.consumer.left == |s.mem.consumed| + s.consumer.left
            && |n.mem.ring.buf| == |s.mem.ring.buf|
    decreases |run|
  {
    if run != [] {
      StepBudget(s, run[0]);
      RunBudget(Step(s, run[0]).value, run[1..]);
    }
  }

  // Whole runs of main: while the stores are clean the buffer is right, and when both loops
  // are done everything is consumed, in order, but for the difference of the loop counts.
  lemma {:induction false} CleanMain(cells: seq<int>, produce: nat, consume: nat, run: seq<Action>)
    requires |cells| > 0 && Exec(Step, Init(cells, produce, consume), run).Some?
    requires CleanRun(Init(cells, produce, consume), run)
    ensures var s := Exec(Step, Init(cells, produce, consume), run).value;
            && s.mem.consumed <= s.mem.produced && 0 <= s.mem.ring.counter <= |s.mem.ring.buf|
            && (s.producer.at == Done && s.consumer.at == Done ==> Settled(s.mem, produce, consume))
  {
    CleanRunIsFifo(Init(cells, produce, consume), run);
    RunBudget(Init(cells, produce, consume), run);
    var s := Exec(Step, Init(cells, produce, consume), run).value;
    if s.producer.at == Done && s.consumer.at == Done {
      AllCountedIsSettled(s.mem, produce, consume);
    }
  }

  // Each update of the counter runs as if it were one step.
  predicate SingleSteps(s: State, run: seq<Action>)
    requires Exec(Step, s, run).Some?
    decreases |run|
  {
    run != [] ==>
      && (s.producer.at == Store ==> run[0].role == Producer)
      && (s.consumer.at == Store ==> run[0].role == Consumer)
      && SingleSteps(Step(s, run[0]).value, run[1..])
  }

  lemma {:induction false} SingleStepsAreClean(s: State, run: seq<Action>)
    requires Exec(Step, s, run).Some? && SingleSteps(s, run)
    requires s.producer.at == Store ==> s.producer.loaded == s.mem.ring.counter
    requires s.consumer.at == Store ==> s.consumer.loaded == s.mem.ring.counter
    ensures CleanRun(s, run)
    decreases |run|
  {
    if run != [] {
      SingleStepsAreClean(Step(s, run[0]).value, run[1..]);
    }
  }
}
