// prodcons_s.c over semlib2.c: any number of producer and consumer threads, three
// semaphores, each made of a mutex and a condition variable, at the granularity of
// single statements and scheduling points.
module Stack {
  import opened Options
  import opened Runs
  import opened RingBuffer
  import opened Body
  import opened Program
  import Semlib
  import Semlib2
  import Atomic = AtomicProdCons

  datatype State = State(sems: Table<Semlib2.Sem>, threads: seq<Thread>, mem: Memory)

  datatype Action =
    | Act(tid: nat, wake: nat, v: int)   // thread tid runs; a signal wakes thread wake
    | Spurious(k: SemId, tid: nat)       // a spurious wakeup

  // The library call a thread stands at.
  function CallOf(t: Thread): Semlib2.Op {
    if t.at.AtWait? then Semlib2.Wait else Semlib2.Post
  }

  function LibraryAction(t: Thread, g: Semlib2.Stage, tid: nat, wake: nat): Semlib2.Action {
    if g == Semlib2.Idle then Semlib2.Begin(tid, CallOf(t)) else Semlib2.Next(tid, wake)
  }

  function Step(s: State, a: Action): Option<State> {
    match a
    case Spurious(k, tid) =>
      (match Semlib2.Step(s.sems.At(k), Semlib2.Spurious(tid))
       case None => None
       case Some(m) => Some(s.(sems := s.sems.Put(k, m))))
    case Act(tid, wake, v) =>
      if tid >= |s.threads| then None
      else
        var t := s.threads[tid];
        match t.at
        case Done => None
        case AtWait(k) => CallStep(s, tid, wake)
        case AtPost(k) => CallStep(s, tid, wake)
        case In(_) =>
          var (next, mem) := AfterStatement(t, s.mem, v);
          Some(s.(threads := s.threads[tid := next], mem := mem))
  }

  // One step inside the library; when the call returns, the thread goes on.
  function CallStep(s: State, tid: nat, wake: nat): Option<State>
    requires tid < |s.threads| && (s.threads[tid].at.AtWait? || s.threads[tid].at.AtPost?)
  {
    var t := s.threads[tid];
    var m := s.sems.At(t.at.k);
    if tid >= |m.stages| then None
    else
      match Semlib2.Step(m, LibraryAction(t, m.stages[tid], tid, wake))
      case None => None
      case Some(n) =>
        Some(s.(sems := s.sems.Put(t.at.k, n),
                threads := if tid < |n.stages| && n.stages[tid] == Semlib2.Idle
                           then s.threads[tid := AfterCall(t)] else s.threads))
  }

  // main: sem_init on the three semaphores, then one thread per entry of loops.
  function Init(cells: seq<int>, loops: seq<(Role, nat)>): State
    requires |cells| > 0
  {
    var n := |loops|;
    State(Table(Semlib2.Init(|cells|, n), Semlib2.Init(0, n), Semlib2.Init(1, n)),
          seq(n, i requires 0 <= i < n => Loop(loops[i].0, loops[i].1, 0)),
          Memory(NewRing(cells), [], []))
  }

  // The stages of a sem_wait and of a sem_post in progress.
  predicate Fits(t: Thread, k: SemId, g: Semlib2.Stage) {
    match g
    case Idle => true
    case Unlock(ok) => ok && (t.at == AtWait(k) || t.at == AtPost(k))
    case Test => t.at == AtWait(k)
    case Asleep => t.at == AtWait(k)
    case Woken => t.at == AtWait(k)
    case Dec => t.at == AtWait(k)
    case Signal => t.at == AtPost(k)
    case Inc => t.at == AtPost(k)
    case _ => false
  }

  // The thread as the atomic level sees it: a call that only has its unlock left is over.
  function AbsThread(s: State, i: nat): Thread
    requires i < |s.threads|
  {
    var t := s.threads[i];
    if (t.at.AtWait? || t.at.AtPost?) && i < |s.sems.At(t.at.k).stages| && s.sems.At(t.at.k).stages[i].Unlock?
    then AfterCall(t) else t
  }

  function Abs(s: State): Atomic.State {
    Atomic.State(Table(s.sems.empty.sval, s.sems.full.sval, s.sems.mutex.sval),
                 seq(|s.threads|, i requires 0 <= i < |s.threads| => AbsThread(s, i)), s.mem)
  }

  ghost predicate Library(s: State) {
    forall k: SemId ::
      && |s.sems.At(k).stages| == |s.threads|
      && Semlib2.Inv(s.sems.At(k))
      && forall i: nat :: i < |s.threads| ==> Fits(s.threads[i], k, s.sems.At(k).stages[i])
  }

  ghost predicate Inv(s: State) {
    && Library(s)
    && (forall i: nat :: i < |s.threads| ==> WellFormed(s.threads[i]))
    && Atomic.Inv(Abs(s))
  }

  // The call goes from one of its stages to the next, or is over.
  lemma {:induction false} CallerFits(t: Thread, m: Semlib2.Sem, tid: nat, wake: nat)
    requires (t.at.AtWait? || t.at.AtPost?) && tid < |m.stages| && Fits(t, t.at.k, m.stages[tid])
    requires Semlib2.Step(m, LibraryAction(t, m.stages[tid], tid, wake)).Some?
    ensures var g := Semlib2.Step(m, LibraryAction(t, m.stages[tid], tid, wake)).value.stages[tid];
            Fits(t, t.at.k, g)
  {
  }

  lemma {:induction false} OwnFits(s: State, a: Action, k: SemId)
    requires Library(s) && Step(s, a).Some? && a.Act? && !s.threads[a.tid].at.In?
    ensures var n := Step(s, a).value; Fits(n.threads[a.tid], k, n.sems.At(k).stages[a.tid])
  {
    var t := s.threads[a.tid];
    assert Fits(t, k, s.sems.At(k).stages[a.tid]);
    if k == t.at.k {
      CallerFits(t, s.sems.At(k), a.tid, a.wake);
    } else {
      assert s.sems.At(k).stages[a.tid] == Semlib2.Idle;
    }
  }

  lemma {:induction false} OtherFits(s: State, a: Action, k: SemId, i: nat)
    requires Library(s) && Step(s, a).Some? && a.Act? && !s.threads[a.tid].at.In?
    requires i < |s.threads| && i != a.tid
    ensures var n := Step(s, a).value; Fits(n.threads[i], k, n.sems.At(k).stages[i])
  {
    var t := s.threads[a.tid];
    var m := s.sems.At(t.at.k);
    assert Fits(s.threads[i], k, s.sems.At(k).stages[i]);
    if k == t.at.k {
      WokenFits(s.threads[i], k, m, LibraryAction(t, m.stages[a.tid], a.tid, a.wake), i);
    }
  }

  // At most a step wakes another thread.
  lemma {:induction false} WokenFits(t: Thread, k: SemId, m: Semlib2.Sem, la: Semlib2.Action, i: nat)
    requires i < |m.stages| && i != la.tid && Fits(t, k, m.stages[i]) && Semlib2.Step(m, la).Some?
    ensures i < |Semlib2.Step(m, la).value.stages| && Fits(t, k, Semlib2.Step(m, la).value.stages[i])
  {
    Semlib2.StepFrame(m, la);
  }

  lemma {:induction false} CallLibrary(s: State, a: Action)
    requires Library(s) && Step(s, a).Some? && a.Act? && !s.threads[a.tid].at.In?
    ensures Library(Step(s, a).value)
  {
    var n := Step(s, a).value;
    var t := s.threads[a.tid];
    var m := s.sems.At(t.at.k);
    var la := LibraryAction(t, m.stages[a.tid], a.tid, a.wake);
    Semlib2.StepInv(m, la);
    Semlib2.StepFrame(m, la);
    forall k: SemId, i: nat | i < |n.threads|
      ensures Fits(n.threads[i], k, n.sems.At(k).stages[i])
    {
      if i == a.tid {
        OwnFits(s, a, k);
      } else {
        OtherFits(s, a, k, i);
      }
    }
  }

  lemma {:induction false} SpuriousLibrary(s: State, a: Action)
    requires Library(s) && Step(s, a).Some? && a.Spurious?
    ensures Library(Step(s, a).value)
  {
    var n := Step(s, a).value;
    Semlib2.StepInv(s.sems.At(a.k), Semlib2.Spurious(a.tid));
    forall k: SemId, i: nat | i < |n.threads|
      ensures Fits(n.threads[i], k, n.sems.At(k).stages[i])
    {
      assert Fits(s.threads[i], k, s.sems.At(k).stages[i]);
    }
  }

  lemma {:induction false} StatementLibrary(s: State, a: Action)
    requires Library(s) && Step(s, a).Some? && a.Act? && s.threads[a.tid].at.In?
    ensures Library(Step(s, a).value)
  {
  }

  lemma {:induction false} StepLibrary(s: State, a: Action)
    requires Library(s) && Step(s, a).Some?
    ensures Library(Step(s, a).value)
  {
    if a.Spurious? {
      SpuriousLibrary(s, a);
    } else if s.threads[a.tid].at.In? {
      StatementLibrary(s, a);
    } else {
      CallLibrary(s, a);
    }
  }

  // The atomic action a step takes effect as: sval--, sval++, or a statement on the ring.
  function Effect(s: State, a: Action): seq<Atomic.Action> {
    if a.Act? && a.tid < |s.threads| then
      var t := s.threads[a.tid];
      match t.at
      case Done => []
      case In(_) => [Atomic.Act(a.tid, a.v)]
      case AtWait(k) => if a.tid < |s.sems.At(k).stages| && s.sems.At(k).stages[a.tid] == Semlib2.Dec
                        then [Atomic.Act(a.tid, a.v)] else []
      case AtPost(k) => if a.tid < |s.sems.At(k).stages| && s.sems.At(k).stages[a.tid] == Semlib2.Inc
                        then [Atomic.Act(a.tid, a.v)] else []
    else []
  }

  // A producer stores what rand() gave it, in the cell at in.
  lemma {:induction false} CopyStores(s: State, a: Action)
    requires a.Act? && a.tid < |s.threads| && s.threads[a.tid].role == Producer && s.threads[a.tid].at == In(Copy)
    ensures Step(s, a).Some?
    ensures var n := Step(s, a).value;
            && n.threads[a.tid].data == a.v
            && n.mem.ring == s.mem.ring.(buf := s.mem.ring.buf[s.mem.ring.inIdx := a.v])
  {
  }

  // The value an action generates.
  function Generates(s: State, a: Action): seq<int> {
    if a.Act? && a.tid < |s.threads| && s.threads[a.tid].role == Producer && s.threads[a.tid].at == In(Copy)
    then [a.v] else []
  }

  // Other threads look the same before and after.
  lemma {:induction false} OthersKept(s: State, a: Action)
    requires Library(s) && Step(s, a).Some?
    ensures var n := Step(s, a).value;
            && |n.threads| == |s.threads|
            && forall i: nat :: i < |s.threads| && (a.Spurious? || i != a.tid) ==> AbsThread(n, i) == AbsThread(s, i)
  {
    if a.Act? && !s.threads[a.tid].at.In? {
      var t := s.threads[a.tid];
      var m := s.sems.At(t.at.k);
      Semlib2.StepFrame(m, LibraryAction(t, m.stages[a.tid], a.tid, a.wake));
    }
  }

  // The calling thread: its call takes effect at sval-- or sval++, and is over after it.
  lemma {:induction false} CallerRefines(s: State, a: Action)
    requires Library(s) && Step(s, a).Some? && a.Act? && !s.threads[a.tid].at.In?
    ensures var n := Step(s, a).value; var t := s.threads[a.tid];
            AbsThread(n, a.tid) == if Effect(s, a) == [] then AbsThread(s, a.tid) else AfterCall(t)
    ensures Effect(s, a) != [] ==> AbsThread(s, a.tid) == s.threads[a.tid]
  {
    var t := s.threads[a.tid];
    assert Fits(t, t.at.k, s.sems.At(t.at.k).stages[a.tid]);
  }

  lemma {:induction false} CallValues(s: State, a: Action)
    requires Library(s) && Step(s, a).Some? && a.Act? && !s.threads[a.tid].at.In?
    ensures var n := Step(s, a).value; var t := s.threads[a.tid];
            if Effect(s, a) == [] then Abs(n).sval == Abs(s).sval
            else Called(Abs(s).sval, t) == Some(Abs(n).sval)
  {
    var t := s.threads[a.tid];
    var m := s.sems.At(t.at.k);
    assert Fits(t, t.at.k, m.stages[a.tid]) && Semlib2.Inv(m);
    var la := LibraryAction(t, m.stages[a.tid], a.tid, a.wake);
    Semlib2.StepValue(m, la);
    assert Step(s, a).value.sems == s.sems.Put(t.at.k, Semlib2.Step(m, la).value);
  }

  // What an atomic call does to the semaphore values.
  function Called(sval: Table<int>, t: Thread): Option<Table<int>>
    requires t.at.AtWait? || t.at.AtPost?
  {
    match Semlib.Step(sval.At(t.at.k), if t.at.AtWait? then Semlib.SemWait else Semlib.SemPost)
    case None => None
    case Some(v) => Some(sval.Put(t.at.k, v))
  }

  lemma {:induction false} CallRefines(s: State, a: Action)
    requires Library(s) && Step(s, a).Some? && a.Act? && !s.threads[a.tid].at.In?
    ensures Exec(Atomic.Step, Abs(s), Effect(s, a)) == Some(Abs(Step(s, a).value))
  {
    var n := Step(s, a).value;
    OthersKept(s, a);
    CallerRefines(s, a);
    CallValues(s, a);
    if Effect(s, a) == [] {
      assert Abs(n).threads == Abs(s).threads;
    } else {
      assert Effect(s, a)[1..] == [];
      assert Abs(n).threads == Abs(s).threads[a.tid := AfterCall(s.threads[a.tid])];
    }
  }

  lemma {:induction false} StepRefines(s: State, a: Action)
    requires Library(s) && Step(s, a).Some?
    ensures Exec(Atomic.Step, Abs(s), Effect(s, a)) == Some(Abs(Step(s, a).value))
  {
    var n := Step(s, a).value;
    if a.Spurious? {
      OthersKept(s, a);
      assert Abs(n) == Abs(s);
    } else if s.threads[a.tid].at.In? {
      OthersKept(s, a);
      assert Effect(s, a)[1..] == [];
      assert Abs(n).threads == Abs(s).threads[a.tid := n.threads[a.tid]];
    } else {
      CallRefines(s, a);
    }
  }

  lemma {:induction false} StepWellFormed(s: State, a: Action)
    requires Step(s, a).Some? && forall i: nat :: i < |s.threads| ==> WellFormed(s.threads[i])
    ensures var n := Step(s, a).value;
            forall i: nat :: i < |n.threads| ==> WellFormed(n.threads[i])
  {
  }

  // The atomic level's invariant is inherited through the refinement.
  lemma {:induction false} AtomicInherited(s: State, run: seq<Atomic.Action>, n: State)
    requires Atomic.Inv(Abs(s)) && Exec(Atomic.Step, Abs(s), run) == Some(Abs(n))
    ensures Atomic.Inv(Abs(n))
  {
    Atomic.IsInductive();
    Invariance(Atomic.Step, Atomic.Inv, Abs(s), run);
  }

  lemma {:induction false} StepInv(s: State, a: Action)
    requires Inv(s) && Step(s, a).Some?
    ensures Inv(Step(s, a).value)
  {
    StepLibrary(s, a);
    StepRefines(s, a);
    StepWellFormed(s, a);
    AtomicInherited(s, Effect(s, a), Step(s, a).value);
  }

  lemma {:induction false} InitInv(cells: seq<int>, loops: seq<(Role, nat)>)
    requires |cells| > 0
    ensures Inv(Init(cells, loops)) && Abs(Init(cells, loops)) == Atomic.Init(cells, loops)
  {
    Semlib2.InitInv(|cells|, |loops|);
    Semlib2.InitInv(0, |loops|);
    Semlib2.InitInv(1, |loops|);
    Atomic.InitInv(cells, loops);
    assert Abs(Init(cells, loops)) == Atomic.Init(cells, loops);
  }

  lemma {:induction false} IsInductive()
    ensures Inductive(Step, Inv)
  {
    forall s, a | Inv(s) && Step(s, a).Some? ensures Inv(Step(s, a).value) {
      StepInv(s, a);
    }
  }
}
