// semlib2.h: sem_t as an object updated in place, one statement of the library at a time.
module SemaphoreObject {
  import opened Options
  import opened Semlib2

  class Semaphore {
    var sval: int
    var mutex: Option<nat>        // the thread that holds the mutex
    const calls: array<Stage>     // how far each thread is in its call, asleep on cond included

    function Model(): Sem
      reads this, calls
    {
      Sem(sval, mutex, calls[..])
    }

    // sem_init
    constructor (value: int, threads: nat)
      ensures Model() == Semlib2.Init(value, threads)
      ensures fresh(calls)
    {
      sval := value;
      mutex := None;
      calls := new Stage[threads](_ => Idle);
      new;
      assert calls[..] == seq(threads, _ => Idle);
    }

    // Runs action a if it is enabled, and changes nothing otherwise.
    method Perform(a: Action) returns (done: bool)
      modifies this, calls
      ensures done == Step(old(Model()), a).Some?
      ensures Model() == if done then Step(old(Model()), a).value else old(Model())
    {
      done := false;
      if a.tid >= calls.Length {
        return;
      }
      match a {
        case Begin(t, op) =>
          if calls[t] == Idle && mutex == None {
            mutex, calls[t], done := Some(t), Entry(op), true;
          }
        case Spurious(t) =>
          if calls[t] == Asleep {
            calls[t], done := Woken, true;
          }
        case Next(t, wake) =>
          done := Proceed(t, wake);
      }
    }

    method Proceed(t: nat, wake: nat) returns (done: bool)
      requires t < calls.Length
      modifies this, calls
      ensures done == NextStep(old(Model()), t, wake).Some?
      ensures Model() == if done then NextStep(old(Model()), t, wake).value else old(Model())
    {
      done := true;
      match calls[t] {
        case Idle => done := false;
        case Asleep => done := false;
        case Test =>
          if sval == 0 {
            mutex, calls[t] := None, Asleep;
          } else {
            calls[t] := Dec;
          }
        case Woken =>
          if mutex == None {
            mutex, calls[t] := Some(t), Test;
          } else {
            done := false;
          }
        case Dec => sval, calls[t] := sval - 1, Unlock(true);
        case TryTest => calls[t] := if sval == 0 then Unlock(false) else TryDec;
        case TryDec => sval, calls[t] := sval - 1, Unlock(true);
        case Signal => done := SignalOne(t, wake);
        case Inc => sval, calls[t] := sval + 1, Unlock(true);
        case Unlock(_) => mutex, calls[t] := None, Idle;
      }
    }

    // pthread_cond_signal: wakes one sleeper if there is any.
    method SignalOne(t: nat, wake: nat) returns (done: bool)
      requires t < calls.Length && calls[t] == Signal
      modifies calls
      ensures done == NextStep(old(Model()), t, wake).Some?
      ensures Model() == if done then NextStep(old(Model()), t, wake).value else old(Model())
    {
      var anyAsleep := SomeoneSleeps();
      if !anyAsleep {
        calls[t] := Inc;
        return true;
      }
      if wake < calls.Length && calls[wake] == Asleep {
        calls[wake] := Woken;
        calls[t] := Inc;
        return true;
      }
      return false;
    }

    method SomeoneSleeps() returns (found: bool)
      ensures found == (Asleep in calls[..])
    {
      for i := 0 to calls.Length
        invariant Asleep !in calls[..i]
      {
        if calls[i] == Asleep {
          return true;
        }
      }
      return false;
    }
  }
}
