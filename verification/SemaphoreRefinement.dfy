// The semaphore of semlib2.c against the atomic semaphore of semlib.c: safety over
// whole runs, refinement, and what sleeping threads are still waiting for.
module SemaphoreRefinement {
  import opened Options
  import opened Runs
  import opened Sums
  import opened Semlib2
  import Semlib

  // A thread is outside, has called and waits for its effect, or has an answer to return.
  datatype Call = Out | Pending(op: Op) | Answered(ok: bool)

  datatype Object = Object(sval: int, calls: seq<Call>)

  datatype Event =
    | Invoke(tid: nat, op: Op)
    | TakeEffect(tid: nat, ok: bool)
    | Return(tid: nat, ok: bool)

  // The specification: between its invocation and its return a call takes effect once, as
  // the atomic operation it is, and it returns what that operation says. Only sem_trywait
  // can fail.
  function ObjectStep(o: Object, e: Event): Option<Object> {
    if e.tid >= |o.calls| then None
    else match e
      case Invoke(t, op) => if o.calls[t] == Out then Some(o.(calls := o.calls[t := Pending(op)])) else None
      case TakeEffect(t, ok) =>
        if !o.calls[t].Pending? || (o.calls[t].op != TryWait && !ok) then None
        else
          (match Semlib.Step(o.sval, AtomicCall(o.calls[t].op, ok))
           case None => None
           case Some(v) => Some(Object(v, o.calls[t := Answered(ok)])))
      case Return(t, ok) => if o.calls[t] == Answered(ok) then Some(o.(calls := o.calls[t := Out])) else None
  }

  function NewObject(value: int, threads: nat): Object {
    Object(value, seq(threads, _ => Out))
  }

  function AtomicCall(op: Op, ok: bool): Semlib.Call {
    match op case Wait => Semlib.SemWait case TryWait => Semlib.SemTryWait(ok) case Post => Semlib.SemPost
  }

  // How far a call is, as its caller could tell.
  function CallAt(g: Stage): Call {
    match g
    case Idle => Out
    case Unlock(ok) => Answered(ok)
    case Signal => Pending(Post)
    case Inc => Pending(Post)
    case TryTest => Pending(TryWait)
    case TryDec => Pending(TryWait)
    case _ => Pending(Wait)
  }

  function View(m: Sem): Object {
    Object(m.sval, seq(|m.stages|, i requires 0 <= i < |m.stages| => CallAt(m.stages[i])))
  }

  // What a step is for the caller: the lock, sval--, sval++ or the failing test, and the unlock.
  function Effect(m: Sem, a: Action): seq<Event> {
    match a
    case Begin(t, op) => [Invoke(t, op)]
    case Spurious(_) => []
    case Next(t, _) =>
      if t >= |m.stages| then []
      else match m.stages[t]
        case Dec => [TakeEffect(t, true)]
        case TryDec => [TakeEffect(t, true)]
        case TryTest => if m.sval == 0 then [TakeEffect(t, false)] else []
        case Inc => [TakeEffect(t, true)]
        case Unlock(ok) => [Return(t, ok)]
        case _ => []
  }

  lemma {:induction false} StepRefines(m: Sem, a: Action)
    requires Inv(m) && Step(m, a).Some?
    ensures Exec(ObjectStep, View(m), Effect(m, a)) == Some(View(Step(m, a).value))
  {
    CallsKept(m, a);
    if Effect(m, a) != [] {
      assert Effect(m, a)[1..] == [];
    }
  }

  // Only the caller's view of its own call changes.
  lemma {:induction false} CallsKept(m: Sem, a: Action)
    requires Step(m, a).Some?
    ensures var n := Step(m, a).value;
            if Effect(m, a) == [] then View(n).calls == View(m).calls
            else View(n).calls == View(m).calls[a.tid := CallAt(n.stages[a.tid])]
  {
    StepFrame(m, a);
    var n := Step(m, a).value;
    if Effect(m, a) == [] {
      assert CallAt(n.stages[a.tid]) == CallAt(m.stages[a.tid]);
    }
  }

  // Every run of the mutex-and-condition semaphore, with spurious wakeups anywhere, is a run
  // of the atomic one, call for call, and ends in a state with no lost wakeup.
  lemma {:induction false} RunRefines(value: int, threads: nat, run: seq<Action>)
    requires value >= 0 && Exec(Step, Init(value, threads), run).Some?
    ensures var m0, m := Init(value, threads), Exec(Step, Init(value, threads), run).value;
            && Exec(ObjectStep, NewObject(value, threads), Trace(Step, Effect, m0, run)) == Some(View(m))
            && NoLostWakeup(m) && MutexInv(m) && m.sval >= 0
  {
    InitInv(value, threads);
    IsInductive();
    Invariance(Step, Inv, Init(value, threads), run);
    forall m, a | Inv(m) && Step(m, a).Some?
      ensures Exec(ObjectStep, View(m), Effect(m, a)) == Some(View(Step(m, a).value))
    {
      StepRefines(m, a);
    }
    assert View(Init(value, threads)) == NewObject(value, threads);
    Simulation(Step, Inv, ObjectStep, View, Effect, Init(value, threads), run);
  }

  // No call in progress can take a step.
  ghost predicate Stuck(m: Sem) {
    forall t: nat, wake: nat :: Step(m, Next(t, wake)) == None
  }

  // A semaphore with no call able to move has a free mutex, and every call in
  // progress is a sem_wait asleep with no token to take.
  lemma {:induction false} StuckMeansNoToken(m: Sem)
    requires Inv(m) && Stuck(m)
    ensures m.owner == None
    ensures forall t: nat :: t < |m.stages| ==> m.stages[t].Idle? || m.stages[t].Asleep?
    ensures Asleep in m.stages ==> m.sval == 0
  {
    forall t: nat | t < |m.stages| ensures !HoldsMutex(m.stages[t]) {
      var wake: nat := if Asleep in m.stages then var u: nat :| u < |m.stages| && m.stages[u] == Asleep; u else 0;
      assert Step(m, Next(t, wake)) == None;
    }
    forall t: nat | t < |m.stages| ensures m.stages[t].Idle? || m.stages[t].Asleep? {
      assert Step(m, Next(t, 0)) == None;
    }
    AllZero(m.stages, Awake);
    AllZero(m.stages, Posting);
  }
}
