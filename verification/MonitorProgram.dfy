// prodcons_m.c as a program over shared objects updated in place: the thread table, Mutex
// and the buffer. A thread asleep on NotFull or NotEmpty is marked in the table.
module MonitorProgram {
  import opened Options
  import opened Runs
  import opened Sums
  import opened RingBuffer
  import opened Body
  import opened Workload
  import opened Monitor
  import opened MonitorTheorems
  import opened SharedBuffer

  class Machine {
    var mutex: Option<nat>
    const threads: array<Thread>
    const buffer: BoundedBuffer
    ghost var produced: seq<int>
    ghost var consumed: seq<int>

    ghost const Objects: set<object> := {this, threads, buffer, buffer.buf}

    ghost function Mem(): Memory
      requires buffer.Valid()
      reads this, buffer, buffer.buf
    {
      Memory(buffer.Model(), produced, consumed)
    }

    ghost function Model(): State
      requires buffer.Valid()
      reads Objects
    {
      State(mutex, threads[..], Mem())
    }

    constructor (cells: seq<int>, loops: seq<(Role, nat)>)
      requires |cells| > 0
      ensures buffer.Valid() && fresh(Objects)
      ensures Model() == Init(cells, loops)
    {
      mutex := None;
      buffer := new BoundedBuffer(cells);
      threads := new Thread[|loops|](i requires 0 <= i < |loops| => Loop(loops[i].0, loops[i].1, 0));
      produced, consumed := [], [];
      new;
      assert threads[..] == Init(cells, loops).threads;
    }

    method Move(tid: nat, at: Point)
      requires buffer.Valid() && tid < threads.Length
      modifies threads
      ensures threads[..] == old(threads[..])[tid := old(threads[tid]).(at := at)]
    {
      threads[tid] := threads[tid].(at := at);
    }

    // Runs action a if it is enabled, and changes nothing otherwise.
    method Perform(a: Action) returns (done: bool)
      requires buffer.Valid()
      modifies Objects
      ensures buffer.Valid()
      ensures done == Step(old(Model()), a).Some?
      ensures Model() == if done then Step(old(Model()), a).value else old(Model())
    {
      if a.tid >= threads.Length {
        return false;
      }
      match a {
        case Spurious(tid) =>
          done := threads[tid].at == Asleep;
          if done {
            Move(tid, Woken);
          }
        case Act(tid, wake, v) =>
          done := Proceed(tid, wake, v);
      }
    }

    method Proceed(tid: nat, wake: nat, v: int) returns (done: bool)
      requires buffer.Valid() && tid < threads.Length
      modifies Objects
      ensures buffer.Valid()
      ensures done == ActStep(old(Model()), tid, wake, v).Some?
      ensures Model() == if done then ActStep(old(Model()), tid, wake, v).value else old(Model())
    {
      var t := threads[tid];
      done := true;
      match t.at {
        case Done => done := false;
        case Asleep => done := false;
        case Lock => done := TakeMutex(tid);
        case Woken => done := TakeMutex(tid);
        case Test =>
          if (if t.role == Producer then buffer.counter == buffer.buf.Length else buffer.counter == 0) {
            Move(tid, Asleep);
            mutex := None;
          } else {
            Move(tid, In(Copy));
          }
        case In(st) => RunStatement(tid, v);
        case Signal => done := SignalPartner(tid, wake);
        case Unlock =>
          threads[tid] := Loop(t.role, t.left - 1, t.data);
          mutex := None;
          assert threads[..] == old(threads[..])[tid := Loop(t.role, t.left - 1, t.data)];
      }
    }

    method TakeMutex(tid: nat) returns (done: bool)
      requires buffer.Valid() && tid < threads.Length
      modifies this, threads
      ensures done == Acquire(old(Model()), tid).Some?
      ensures Model() == if done then Acquire(old(Model()), tid).value else old(Model())
    {
      done := mutex == None;
      if done {
        Move(tid, Test);
        mutex := Some(tid);
      }
    }

    method RunStatement(tid: nat, v: int)
      requires buffer.Valid() && tid < threads.Length && threads[tid].at.In?
      modifies this, threads, buffer, buffer.buf
      ensures buffer.Valid() && ActStep(old(Model()), tid, 0, v) == Some(Model())
      ensures old(threads[tid].role == Producer && threads[tid].at == In(Copy)) ==>
                threads[tid].data == v && buffer.buf[..] == old(buffer.buf[..])[old(buffer.inIdx) := v]
    {
      var t := threads[tid];
      var data;
      ghost var mem := Mem();
      data, mem := buffer.Execute(t.role, t.at.st, t.data, v, mem);
      produced, consumed := mem.produced, mem.consumed;
      var at := match t.at.st case Copy => In(Advance) case Advance => In(Count) case Count => Signal;
      threads[tid] := t.(at := at, data := data);
      assert threads[..] == old(threads[..])[tid := t.(at := at, data := data)];
    }

    // pthread_cond_signal on the partner's condition variable: wakes one sleeper if any.
    method SignalPartner(tid: nat, wake: nat) returns (done: bool)
      requires buffer.Valid() && tid < threads.Length && threads[tid].at == Signal
      modifies threads
      ensures done == ActStep(old(Model()), tid, wake, 0).Some?
      ensures Model() == if done then ActStep(old(Model()), tid, wake, 0).value else old(Model())
    {
      var partner := Partner(threads[tid].role);
      var anyAsleep := SomeoneSleeps(partner);
      if !anyAsleep {
        Move(tid, Unlock);
        return true;
      }
      if wake < threads.Length && SleepsAs(threads[wake], partner) {
        Move(tid, Unlock);
        Move(wake, Woken);
        return true;
      }
      return false;
    }

    method SomeoneSleeps(role: Role) returns (found: bool)
      ensures found == AnyAsleep(threads[..], role)
    {
      for i := 0 to threads.Length
        invariant forall j: nat :: j < i ==> !SleepsAs(threads[j], role)
      {
        if SleepsAs(threads[i], role) {
          assert threads[i] in threads[..];
          return true;
        }
      }
      return false;
    }

    // Lets thread tid take one step if it can; wake is the thread its signal wakes, if any.
    method TryThread(tid: nat, v: int) returns (done: bool, wake: nat)
      requires buffer.Valid()
      modifies Objects
      ensures buffer.Valid()
      ensures done ==> Step(old(Model()), Act(tid, wake, v)) == Some(Model())
      ensures !done ==> Model() == old(Model())
      ensures !done ==> forall w: nat :: w < threads.Length ==> Step(Model(), Act(tid, w, v)) == None
    {
      ghost var s := Model();
      wake := 0;
      done := false;
      while wake < threads.Length
        invariant buffer.Valid() && Model() == s && wake <= threads.Length
        invariant forall w: nat :: w < wake ==> Step(s, Act(tid, w, v)) == None
      {
        done := Perform(Act(tid, wake, v));
        if done {
          return;
        }
        wake := wake + 1;
      }
    }

    // Lets the first thread that can move take one step.
    method StepSome(v: int) returns (done: bool, ghost a: Action)
      requires buffer.Valid()
      modifies Objects
      ensures buffer.Valid()
      ensures done ==> a.Act? && Step(old(Model()), a) == Some(Model())
      ensures !done ==> Model() == old(Model()) && Stuck(Model())
    {
      a := Act(0, 0, v);
      done := false;
      for tid := 0 to threads.Length
        invariant buffer.Valid() && Model() == old(Model())
        invariant forall t: nat, w: nat :: t < tid && w < threads.Length ==> Step(Model(), Act(t, w, v)) == None
      {
        var wake;
        done, wake := TryThread(tid, v);
        if done {
          a := Act(tid, wake, v);
          return;
        }
      }
      forall b: Action | b.Act? ensures Step(Model(), b) == None {
        SmallWake(Model(), b, v);
      }
    }

    // Runs whatever interleaving schedule asks for, skipping what is not enabled when its
    // turn comes.
    method Follow(schedule: seq<Action>, ghost start: State) returns (ghost run: seq<Action>)
      requires buffer.Valid() && Inv(start) && Model() == start
      modifies Objects
      ensures buffer.Valid() && Inv(Model()) && Exec(Step, start, run) == Some(Model())
      ensures run == Possible(Step, start, schedule)
    {
      for i := 0 to |schedule|
        invariant buffer.Valid() && Inv(Model())
        invariant Exec(Step, start, Possible(Step, start, schedule[..i])) == Some(Model())
      {
        ghost var before := Model();
        PossibleNext(Step, start, schedule, i, before);
        var done := Perform(schedule[i]);
        if done {
          StepInv(before, schedule[i]);
        }
      }
      assert schedule[..|schedule|] == schedule;
      run := Possible(Step, start, schedule);
    }

    // Lets threads run on until none can move.
    method RunOn(v: int, ghost start: State, ghost begun: seq<Action>) returns (ghost run: seq<Action>)
      requires buffer.Valid() && Inv(Model()) && Exec(Step, start, begun) == Some(Model())
      modifies Objects
      ensures buffer.Valid() && Exec(Step, start, run) == Some(Model()) && Stuck(Model())
      ensures begun <= run
    {
      run := begun;
      var going := true;
      while going
        invariant buffer.Valid() && Inv(Model()) && Exec(Step, start, run) == Some(Model())
        invariant begun <= run
        invariant !going ==> Stuck(Model())
        decreases going, Rank(Model())
      {
        ghost var before, a := Model(), Act(0, 0, v);
        RankIsNat(before);
        going, a := StepSome(v);
        if going {
          run := Extend(Step, start, run, before, a);
          StepInv(before, a);
          StepRank(before, a);
          RankIsNat(Model());
        }
      }
    }
  }

  // Whether a thread can move does not depend on the data it would write, nor on a wakeup
  // naming no thread.
  lemma {:induction false} SmallWake(s: State, b: Action, v: int)
    requires b.Act?
    requires forall t: nat, w: nat :: t < |s.threads| && w < |s.threads| ==> Step(s, Act(t, w, v)) == None
    ensures Step(s, b) == None
  {
    if b.tid < |s.threads| {
      var w := if b.wake < |s.threads| then b.wake else 0;
      assert Step(s, Act(b.tid, w, v)) == None;
    }
  }

  // main, from pthread_create to the last pthread_join: whatever the interleaving asked for
  // first, the program comes to rest, with all threads done exactly when the loops are
  // balanced; then everything produced has been consumed, in order, but for the difference.
  method StartAndJoin(cells: seq<int>, loops: seq<(Role, nat)>, schedule: seq<Action>, v: int)
    returns (m: Machine, ghost run: seq<Action>)
    requires |cells| > 0
    ensures m.buffer.Valid() && fresh(m.Objects)
    ensures Exec(Step, Init(cells, loops), run) == Some(m.Model()) && Stuck(m.Model())
    ensures Possible(Step, Init(cells, loops), schedule) <= run
    ensures var supply, demand := Sum(loops, ProducerLoops), Sum(loops, ConsumerLoops);
            && (Finished(m.Model()) <==> Balanced(supply, demand, |cells|))
            && (Finished(m.Model()) ==> Settled(m.Mem(), supply, demand))
    ensures Finished(m.Model()) ==> m.produced == Trace(Step, Generates, Init(cells, loops), run)
  {
    m := new Machine(cells, loops);
    InitInv(cells, loops);
    run := m.Follow(schedule, Init(cells, loops));
    run := m.RunOn(v, Init(cells, loops), run);
    RunProducesGenerated(cells, loops, run);
    MaximalRunFinishesIffBalanced(cells, loops, run);
  }
}
