// prodcons_m.c: the same buffer with one mutex and the two condition variables NotFull
// and NotEmpty, for any number of producers and consumers.
module Monitor {
  import opened Options
  import opened Runs
  import opened Sums
  import opened RingBuffer
  import opened Body

  // Asleep and Woken are inside pthread_cond_wait: a producer's on NotFull, a consumer's
  // on NotEmpty. Every other point but Lock and Done is under the mutex.
  datatype Point = Lock | Test | Asleep | Woken | In(st: Statement) | Signal | Unlock | Done

  datatype Thread = Thread(role: Role, at: Point, left: int, data: int)

  datatype State = State(owner: Option<nat>, threads: seq<Thread>, mem: Memory)

  datatype Action =
    | Act(tid: nat, wake: nat, v: int)   // thread tid runs; a signal wakes thread wake
    | Spurious(tid: nat)                 // pthread_cond_wait returns without a signal

  function Loop(role: Role, left: int, data: int): Thread {
    Thread(role, if left > 0 then Lock else Done, left, data)
  }

  function Init(cells: seq<int>, loops: seq<(Role, nat)>): State
    requires |cells| > 0
  {
    State(None, seq(|loops|, i requires 0 <= i < |loops| => Loop(loops[i].0, loops[i].1, 0)),
          Memory(NewRing(cells), [], []))
  }

  predicate SleepsAs(t: Thread, role: Role) {
    t.role == role && t.at == Asleep
  }

  predicate AnyAsleep(ts: seq<Thread>, role: Role) {
    exists t :: t in ts && SleepsAs(t, role)
  }

  function Partner(role: Role): Role {
    if role == Producer then Consumer else Producer
  }

  function Step(s: State, a: Action): Option<State> {
    if a.tid >= |s.threads| then None
    else if a.Spurious? then
      if s.threads[a.tid].at == Asleep
      then Some(s.(threads := s.threads[a.tid := s.threads[a.tid].(at := Woken)])) else None
    else ActStep(s, a.tid, a.wake, a.v)
  }

  function ActStep(s: State, tid: nat, wake: nat, v: int): Option<State>
    requires tid < |s.threads|
  {
    var t := s.threads[tid];
    match t.at
    case Done => None
    case Asleep => None
    case Lock => Acquire(s, tid)
    case Woken => Acquire(s, tid)
    case Test =>
      if MustWait(t.role, s.mem.ring)
      then Some(s.(owner := None, threads := s.threads[tid := t.(at := Asleep)]))
      else Some(s.(threads := s.threads[tid := t.(at := In(Copy))]))
    case In(st) =>
      var (data, mem) := Run(t.role, st, t.data, s.mem, v);
      var at := match st case Copy => In(Advance) case Advance => In(Count) case Count => Signal;
      Some(s.(threads := s.threads[tid := t.(at := at, data := data)], mem := mem))
    case Signal =>
      var after := s.threads[tid := t.(at := Unlock)];
      if !AnyAsleep(s.threads, Partner(t.role)) then Some(s.(threads := after))
      else if wake < |s.threads| && SleepsAs(s.threads[wake], Partner(t.role))
      then Some(s.(threads := after[wake := s.threads[wake].(at := Woken)]))
      else None
    case Unlock => Some(s.(owner := None, threads := s.threads[tid := Loop(t.role, t.left - 1, t.data)]))
  }

  function Acquire(s: State, tid: nat): Option<State>
    requires tid < |s.threads|
  {
    if s.owner == None
    then Some(s.(owner := Some(tid), threads := s.threads[tid := s.threads[tid].(at := Test)]))
    else None
  }

  predicate HoldsMutex(p: Point) {
    p.Test? || p.In? || p.Signal? || p.Unlock?
  }

  ghost predicate MutexInv(s: State) {
    && (s.owner.Some? ==> s.owner.value < |s.threads|)
    && forall i: nat :: i < |s.threads| ==> (HoldsMutex(s.threads[i].at) <==> s.owner == Some(i))
  }

  predicate WellFormed(t: Thread) {
    if t.at == Done then t.left == 0 else t.left > 0
  }

  // 1 while the mutex owner has moved its index and not yet the counter.
  function AheadOf(s: State, role: Role): int {
    if s.owner.Some? && s.owner.value < |s.threads| && s.threads[s.owner.value].role == role
       && s.threads[s.owner.value].at == In(Count) then 1 else 0
  }

  ghost predicate Data(s: State) {
    && Consistent(s.mem, AheadOf(s, Producer), AheadOf(s, Consumer))
    && forall t :: t in s.threads && t.at.In? ==> Ready(t.role, t.at.st, t.data, s.mem)
  }

  // The item a producer has generated and not counted yet.
  function Held(t: Thread): seq<int> {
    if t.role == Producer && (t.at == In(Advance) || t.at == In(Count)) then [t.data] else []
  }

  // Items a consumer could take, or slots a producer could fill.
  function Available(role: Role, r: Ring): int {
    if role == Consumer then r.counter else |r.buf| - r.counter
  }

  // Who will still look after what is available to role: its awake threads on their way to
  // the counter, and partners that have changed the counter and not signalled yet.
  function Covers(t: Thread, role: Role): bool {
    if t.role == role then t.at.Woken? || t.at.Test? || t.at.In? else t.at.Signal?
  }

  function ForConsumers(t: Thread): int {
    if Covers(t, Consumer) then 1 else 0
  }

  function ForProducers(t: Thread): int {
    if Covers(t, Producer) then 1 else 0
  }

  function Cover(ts: seq<Thread>, role: Role): int {
    Sum(ts, if role == Consumer then ForConsumers else ForProducers)
  }

  // No lost wakeup, on either condition variable.
  ghost predicate NoLostWakeup(s: State, role: Role) {
    AnyAsleep(s.threads, role) ==> Available(role, s.mem.ring) <= Cover(s.threads, role)
  }

  ghost predicate Inv(s: State) {
    && MutexInv(s)
    && (forall t :: t in s.threads ==> WellFormed(t))
    && Data(s)
    && NoLostWakeup(s, Producer)
    && NoLostWakeup(s, Consumer)
  }

  function Weight(t: Thread, role: Role): int {
    if Covers(t, role) then 1 else 0
  }

  lemma {:induction false} CoverMoved(ts: seq<Thread>, i: nat, t: Thread, role: Role)
    requires i < |ts|
    ensures Cover(ts[i := t], role) == Cover(ts, role) - Weight(ts[i], role) + Weight(t, role)
  {
    Update(ts, i, t, if role == Consumer then ForConsumers else ForProducers);
  }

  lemma {:induction false} CoverNonNegative(ts: seq<Thread>, role: Role)
    ensures Cover(ts, role) >= 0
  {
    NonNegative(ts, if role == Consumer then ForConsumers else ForProducers);
  }

  lemma {:induction false} StepMutex(s: State, a: Action)
    requires MutexInv(s) && Step(s, a).Some?
    ensures MutexInv(Step(s, a).value)
  {
  }

  // A step that wakes nobody moves one thread; it may not leave more uncovered.
  lemma {:induction false} OneMoves(s: State, tid: nat, t: Thread, n: State, role: Role)
    requires NoLostWakeup(s, role) && tid < |s.threads| && n.threads == s.threads[tid := t]
    requires !SleepsAs(t, role)
    requires Available(role, n.mem.ring) - Weight(t, role)
          <= Available(role, s.mem.ring) - Weight(s.threads[tid], role)
    ensures NoLostWakeup(n, role)
  {
    CoverMoved(s.threads, tid, t, role);
    if AnyAsleep(n.threads, role) {
      var i: nat :| i < |n.threads| && SleepsAs(n.threads[i], role);
      assert s.threads[i] in s.threads;
    }
  }

  lemma {:induction false} SleepKeepsWakeups(s: State, tid: nat, n: State, role: Role)
    requires Inv(s) && tid < |s.threads| && s.threads[tid].at == Test && MustWait(s.threads[tid].role, s.mem.ring)
    requires n == ActStep(s, tid, 0, 0).value
    ensures NoLostWakeup(n, role)
  {
    if role == s.threads[tid].role {
      CoverNonNegative(n.threads, role);
    } else {
      OneMoves(s, tid, n.threads[tid], n, role);
    }
  }

  // A signal hands its cover over to the thread it wakes.
  lemma {:induction false} SignalKeepsWakeups(s: State, tid: nat, wake: nat, n: State, role: Role)
    requires Inv(s) && tid < |s.threads| && s.threads[tid].at == Signal
    requires ActStep(s, tid, wake, 0) == Some(n)
    ensures NoLostWakeup(n, role)
  {
    var t := s.threads[tid];
    var after := s.threads[tid := t.(at := Unlock)];
    CoverMoved(s.threads, tid, t.(at := Unlock), role);
    if AnyAsleep(s.threads, Partner(t.role)) {
      CoverMoved(after, wake, s.threads[wake].(at := Woken), role);
    }
    if AnyAsleep(n.threads, role) {
      var i: nat :| i < |n.threads| && SleepsAs(n.threads[i], role);
      assert s.threads[i] in s.threads && SleepsAs(s.threads[i], role);
    }
  }

  lemma {:induction false} StepWakeups(s: State, a: Action, role: Role)
    requires Inv(s) && Step(s, a).Some?
    ensures NoLostWakeup(Step(s, a).value, role)
  {
    var n := Step(s, a).value;
    var t := s.threads[a.tid];
    if a.Act? && t.at == Test && MustWait(t.role, s.mem.ring) {
      SleepKeepsWakeups(s, a.tid, n, role);
    } else if a.Act? && t.at == Signal {
      SignalKeepsWakeups(s, a.tid, a.wake, n, role);
    } else {
      OneMoves(s, a.tid, n.threads[a.tid], n, role);
    }
  }

  // Mutual exclusion.
  lemma {:induction false} Exclusion(s: State, i: nat, j: nat)
    requires MutexInv(s) && i < |s.threads| && j < |s.threads|
    requires HoldsMutex(s.threads[i].at) && HoldsMutex(s.threads[j].at)
    ensures i == j
  {
  }

  // Where a thread can be kept waiting: at the lock, asleep, or woken with the mutex taken. A
  // signal can wake any sleeper of the partner role, and a sleeper can always wake by itself.
  lemma {:induction false} EnabledIff(s: State, tid: nat, wake: nat, v: int)
    requires tid < |s.threads|
    ensures Step(s, Spurious(tid)).Some? <==> s.threads[tid].at == Asleep
    ensures Step(s, Act(tid, wake, v)).Some? <==>
            var partner := if s.threads[tid].role == Producer then Consumer else Producer;
            match s.threads[tid].at
            case Done => false
            case Asleep => false
            case Lock => s.owner == None
            case Woken => s.owner == None
            case Signal => AnyAsleep(s.threads, partner) ==> wake < |s.threads| && SleepsAs(s.threads[wake], partner)
            case _ => true
  {
  }

  // A producer stores what rand() gave it, in the cell at in.
  lemma {:induction false} CopyStores(s: State, a: Action)
    requires a.Act? && a.tid < |s.threads| && s.threads[a.tid].role == Producer && s.threads[a.tid].at == In(Copy)
    ensures Step(s, a).Some?
    ensures var n := Step(s, a).value;
            && n.threads[a.tid].data == a.v
            && n.mem.ring == s.mem.ring.(buf := s.mem.ring.buf[s.mem.ring.inIdx := a.v])
  {
  }

  // The value an action generates.
  function Generates(s: State, a: Action): seq<int> {
    if a.Act? && a.tid < |s.threads| && s.threads[a.tid].role == Producer && s.threads[a.tid].at == In(Copy)
    then [a.v] else []
  }

  function Generated(s: State): seq<int> {
    s.mem.produced + Gather(s.threads, Held)
  }

  lemma {:induction false} OnlyInside(s: State, i: nat)
    requires MutexInv(s) && i < |s.threads| && s.threads[i].at.In?
    ensures forall j: nat :: j < |s.threads| && j != i ==> Held(s.threads[j]) == []
  {
    forall j: nat | j < |s.threads| && j != i ensures Held(s.threads[j]) == [] {
      if s.threads[j].at.In? {
        Exclusion(s, i, j);
      }
    }
  }

  lemma {:induction false} StatementGenerates(s: State, a: Action)
    requires MutexInv(s) && Step(s, a).Some? && a.Act? && s.threads[a.tid].at.In?
    ensures Generated(Step(s, a).value) == Generated(s) + Generates(s, a)
  {
    var n := Step(s, a).value;
    OnlyInside(s, a.tid);
    GatherOne(s.threads, a.tid, Held);
    GatherOne(n.threads, a.tid, Held);
  }

  // No other step touches an item.
  lemma {:induction false} OthersHold(s: State, a: Action)
    requires Step(s, a).Some? && !(a.Act? && s.threads[a.tid].at.In?)
    ensures var n := Step(s, a).value;
            && n.mem == s.mem && |n.threads| == |s.threads|
            && forall i: nat :: i < |s.threads| ==> Held(n.threads[i]) == Held(s.threads[i])
  {
  }

  lemma {:induction false} StepGenerates(s: State, a: Action)
    requires MutexInv(s) && Step(s, a).Some?
    ensures Generated(Step(s, a).value) == Generated(s) + Generates(s, a)
  {
    if a.Act? && s.threads[a.tid].at.In? {
      StatementGenerates(s, a);
    } else {
      OthersHold(s, a);
      SameGather(s.threads, Step(s, a).value.threads, Held, Held);
    }
  }

  lemma {:induction false} HeldByOne(s: State)
    requires MutexInv(s)
    ensures |Gather(s.threads, Held)| <= 1
  {
    if i: nat :| i < |s.threads| && s.threads[i].at.In? {
      OnlyInside(s, i);
      GatherOne(s.threads, i, Held);
    } else {
      GatherNothing(s.threads, Held);
    }
  }

  lemma {:induction false} StatementKeepsData(s: State, a: Action)
    requires Inv(s) && Step(s, a).Some? && a.Act? && s.threads[a.tid].at.In?
    ensures Data(Step(s, a).value)
  {
    var n := Step(s, a).value;
    var t := s.threads[a.tid];
    assert s.owner == Some(a.tid);
    if t.role == Producer {
      ProducerKeeps(t.at.st, t.data, s.mem, a.v, 0);
    } else {
      ConsumerKeeps(t.at.st, t.data, s.mem, a.v, 0);
    }
    forall u | u in n.threads && u.at.In? ensures Ready(u.role, u.at.st, u.data, n.mem) {
      var i: nat :| i < |n.threads| && n.threads[i] == u;
      if i != a.tid {
        Exclusion(s, i, a.tid);
      }
    }
  }

  lemma {:induction false} OtherKeepsData(s: State, a: Action)
    requires Inv(s) && Step(s, a).Some? && !(a.Act? && s.threads[a.tid].at.In?)
    ensures Data(Step(s, a).value)
  {
  }

  lemma {:induction false} StepInv(s: State, a: Action)
    requires Inv(s) && Step(s, a).Some?
    ensures Inv(Step(s, a).value)
  {
    StepMutex(s, a);
    StepWakeups(s, a, Producer);
    StepWakeups(s, a, Consumer);
    if a.Act? && s.threads[a.tid].at.In? {
      StatementKeepsData(s, a);
    } else {
      OtherKeepsData(s, a);
    }
    StepWellFormed(s, a);
  }

  lemma {:induction false} StepWellFormed(s: State, a: Action)
    requires (forall t :: t in s.threads ==> WellFormed(t)) && Step(s, a).Some?
    ensures forall t :: t in Step(s, a).value.threads ==> WellFormed(t)
  {
    var n := Step(s, a).value;
    forall u | u in n.threads ensures WellFormed(u) {
      var i: nat :| i < |n.threads| && n.threads[i] == u;
      assert WellFormed(s.threads[i]);
    }
  }

  lemma {:induction false} InitInv(cells: seq<int>, loops: seq<(Role, nat)>)
    requires |cells| > 0
    ensures Inv(Init(cells, loops))
  {
  }

  lemma {:induction false} IsInductive()
    ensures Inductive(Step, Inv)
  {
    forall s, a | Inv(s) && Step(s, a).Some? ensures Inv(Step(s, a).value) {
      StepInv(s, a);
    }
  }
}
