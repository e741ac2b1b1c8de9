// 6_Synchronization/semlib2.c: a counting semaphore built from one mutex and one
// condition variable, used by any number of threads calling sem_wait, sem_trywait
// and sem_post in any order. Every statement between two scheduling points is a step.
module Semlib2 {
  import opened Options
  import opened Runs
  import opened Sums

  datatype Op = Wait | TryWait | Post

  // Where a thread stands in the library call it is making on this semaphore.
  // Every stage but Idle, Asleep and Woken is under the mutex.
  datatype Stage =
    | Idle              // in no call, or in front of pthread_mutex_lock
    | Test              // about to evaluate sval == 0 in the wait loop
    | Asleep            // inside pthread_cond_wait, not signalled yet
    | Woken             // inside pthread_cond_wait, waiting to take the mutex back
    | Dec               // about to run sval--
    | TryTest           // about to evaluate sval == 0 in sem_trywait
    | TryDec            // about to run sval-- in sem_trywait
    | Signal            // about to call pthread_cond_signal
    | Inc               // about to run sval++
    | Unlock(ok: bool)  // about to unlock and return 0 (ok) or -1

  datatype Sem = Sem(sval: int, owner: Option<nat>, stages: seq<Stage>)

  datatype Action =
    | Begin(tid: nat, op: Op)      // the pthread_mutex_lock that opens a call
    | Next(tid: nat, wake: nat)    // the next step of a call; a signal wakes thread wake
    | Spurious(tid: nat)           // pthread_cond_wait returns without a signal

  function Init(value: int, threads: nat): Sem {
    Sem(value, None, seq(threads, _ => Idle))
  }

  function Entry(op: Op): Stage {
    match op case Wait => Test case TryWait => TryTest case Post => Signal
  }

  function Step(m: Sem, a: Action): Option<Sem> {
    if a.tid >= |m.stages| then None
    else match a
      case Begin(t, op) =>
        if m.stages[t] == Idle && m.owner == None
        then Some(m.(owner := Some(t), stages := m.stages[t := Entry(op)]))
        else None
      case Spurious(t) =>
        if m.stages[t] == Asleep then Some(m.(stages := m.stages[t := Woken])) else None
      case Next(t, wake) => NextStep(m, t, wake)
  }

  function NextStep(m: Sem, t: nat, wake: nat): Option<Sem>
    requires t < |m.stages|
  {
    match m.stages[t]
    case Idle => None
    case Asleep => None
    case Test =>
      if m.sval == 0 then Some(m.(owner := None, stages := m.stages[t := Asleep]))
      else Some(m.(stages := m.stages[t := Dec]))
    case Woken =>
      if m.owner == None then Some(m.(owner := Some(t), stages := m.stages[t := Test])) else None
    case Dec => Some(m.(sval := m.sval - 1, stages := m.stages[t := Unlock(true)]))
    case TryTest =>
      Some(m.(stages := m.stages[t := if m.sval == 0 then Unlock(false) else TryDec]))
    case TryDec => Some(m.(sval := m.sval - 1, stages := m.stages[t := Unlock(true)]))
    case Signal =>
      if Asleep !in m.stages then Some(m.(stages := m.stages[t := Inc]))
      else if wake < |m.stages| && m.stages[wake] == Asleep
      then Some(m.(stages := m.stages[wake := Woken][t := Inc]))
      else None
    case Inc => Some(m.(sval := m.sval + 1, stages := m.stages[t := Unlock(true)]))
    case Unlock(_) => Some(m.(owner := None, stages := m.stages[t := Idle]))
  }

  predicate HoldsMutex(g: Stage) {
    !(g.Idle? || g.Asleep? || g.Woken?)
  }

  // Awake waiters that have not yet taken a token.
  function Awake(g: Stage): int {
    if g.Woken? || g.Test? || g.Dec? then 1 else 0
  }

  // Posters between their signal and their increment.
  function Posting(g: Stage): int {
    if g.Inc? then 1 else 0
  }

  ghost predicate MutexInv(m: Sem) {
    && (m.owner.Some? ==> m.owner.value < |m.stages|)
    && forall t: nat :: t < |m.stages| ==> (HoldsMutex(m.stages[t]) <==> m.owner == Some(t))
  }

  // No lost wakeup: while anyone sleeps, every token present or about to be added
  // is matched by an awake waiter that will still test for it.
  ghost predicate NoLostWakeup(m: Sem) {
    Asleep in m.stages ==> m.sval + Sum(m.stages, Posting) <= Sum(m.stages, Awake)
  }

  ghost predicate Inv(m: Sem) {
    && m.sval >= 0
    && MutexInv(m)
    && (forall t: nat :: t < |m.stages| && (m.stages[t].Dec? || m.stages[t].TryDec?) ==> m.sval > 0)
    && NoLostWakeup(m)
  }

  lemma {:induction false} InitInv(value: int, threads: nat)
    requires value >= 0
    ensures Inv(Init(value, threads))
  {
  }

  // One thread moves to stage g: what happens to both sums.
  lemma {:induction false} Moved(m: Sem, t: nat, g: Stage)
    requires t < |m.stages|
    ensures Sum(m.stages[t := g], Awake) == Sum(m.stages, Awake) - Awake(m.stages[t]) + Awake(g)
    ensures Sum(m.stages[t := g], Posting) == Sum(m.stages, Posting) - Posting(m.stages[t]) + Posting(g)
  {
    Update(m.stages, t, g, Awake);
    Update(m.stages, t, g, Posting);
  }

  // With the mutex at thread t, only t can be between signal and increment.
  lemma {:induction false} PostingIsOwner(m: Sem, t: nat)
    requires MutexInv(m) && m.owner == Some(t) && !m.stages[t].Inc?
    ensures Sum(m.stages, Posting) == 0
  {
    AllZero(m.stages, Posting);
  }

  lemma {:induction false} StepKeepsMutex(m: Sem, a: Action)
    requires MutexInv(m) && Step(m, a).Some?
    ensures MutexInv(Step(m, a).value)
  {
  }

  // A thread that finds no token goes to sleep: nothing was owed to the sleepers.
  lemma {:induction false} SleepNoLostWakeup(m: Sem, t: nat)
    requires Inv(m) && t < |m.stages| && m.stages[t] == Test && m.sval == 0
    ensures NoLostWakeup(NextStep(m, t, 0).value)
  {
    Moved(m, t, Asleep);
    PostingIsOwner(m, t);
    NonNegative(m.stages[t := Asleep], Awake);
  }

  // A signal sent to a sleeper makes room for the increment that follows it.
  lemma {:induction false} SignalNoLostWakeup(m: Sem, t: nat, wake: nat)
    requires Inv(m) && t < |m.stages| && m.stages[t] == Signal
    requires wake < |m.stages| && m.stages[wake] == Asleep
    ensures NoLostWakeup(NextStep(m, t, wake).value)
  {
    Moved(m, wake, Woken);
    Moved(m.(stages := m.stages[wake := Woken]), t, Inc);
  }

  // Any other step moves one thread, and lowers the debt or keeps it.
  lemma {:induction false} OtherNoLostWakeup(m: Sem, t: nat, sval: int, g: Stage)
    requires NoLostWakeup(m) && t < |m.stages| && !g.Asleep?
    requires sval + Posting(g) - Awake(g) <= m.sval + Posting(m.stages[t]) - Awake(m.stages[t])
    ensures NoLostWakeup(Sem(sval, m.owner, m.stages[t := g]))
  {
    Moved(m, t, g);
    if Asleep in m.stages[t := g] {
      var u: nat :| u < |m.stages| && m.stages[t := g][u] == Asleep;
      assert m.stages[u] == Asleep;
    }
  }

  lemma {:induction false} StepNoLostWakeup(m: Sem, a: Action)
    requires Inv(m) && Step(m, a).Some?
    ensures NoLostWakeup(Step(m, a).value)
  {
    var n := Step(m, a).value;
    var t := a.tid;
    if a.Next? && m.stages[t] == Test && m.sval == 0 {
      SleepNoLostWakeup(m, t);
    } else if a.Next? && m.stages[t] == Signal {
      if Asleep in m.stages {
        SignalNoLostWakeup(m, t, a.wake);
      }
    } else {
      assert n.stages == m.stages[t := n.stages[t]];
      OtherNoLostWakeup(m, t, n.sval, n.stages[t]);
    }
  }

  lemma {:induction false} StepInv(m: Sem, a: Action)
    requires Inv(m) && Step(m, a).Some?
    ensures Inv(Step(m, a).value)
  {
    StepKeepsMutex(m, a);
    StepNoLostWakeup(m, a);
  }

  lemma {:induction false} IsInductive()
    ensures Inductive(Step, Inv)
  {
    forall m, a | Inv(m) && Step(m, a).Some? ensures Inv(Step(m, a).value) {
      StepInv(m, a);
    }
  }

  // Where a call can be kept waiting: at the lock, asleep, or woken with the mutex taken. A
  // signal can wake any sleeper, and a sleeper can always wake by itself.
  lemma {:induction false} EnabledIff(m: Sem, t: nat, wake: nat, op: Op)
    requires t < |m.stages|
    ensures Step(m, Begin(t, op)).Some? <==> m.stages[t] == Idle && m.owner == None
    ensures Step(m, Spurious(t)).Some? <==> m.stages[t] == Asleep
    ensures Step(m, Next(t, wake)).Some? <==>
            match m.stages[t]
            case Idle => false
            case Asleep => false
            case Woken => m.owner == None
            case Signal => Asleep in m.stages ==> wake < |m.stages| && m.stages[wake] == Asleep
            case _ => true
  {
  }

  // Only the two decrements and the increment change the value.
  lemma {:induction false} StepValue(m: Sem, a: Action)
    requires Step(m, a).Some?
    ensures Step(m, a).value.sval - m.sval ==
            (if a.Next? && (m.stages[a.tid].Dec? || m.stages[a.tid].TryDec?) then -1
             else if a.Next? && m.stages[a.tid].Inc? then 1 else 0)
  {
  }

  // A step by one thread leaves every other thread where it was, except that it may
  // move a sleeper to Woken.
  lemma {:induction false} StepFrame(m: Sem, a: Action)
    requires Step(m, a).Some?
    ensures var n := Step(m, a).value;
            && |n.stages| == |m.stages|
            && forall u: nat :: u < |m.stages| && u != a.tid ==>
                 n.stages[u] == m.stages[u] || (m.stages[u] == Asleep && n.stages[u] == Woken)
  {
  }
}
