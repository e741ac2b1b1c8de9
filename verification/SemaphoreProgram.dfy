// prodcons_s.c as a program over shared objects: the thread table, three sem_t and the
// buffer, all updated in place, one step of one thread at a time.
module SemaphoreProgram {
  import opened Options
  import opened Runs
  import opened Sums
  import opened RingBuffer
  import opened Body
  import opened Program
  import opened Workload
  import opened Stack
  import opened SharedBuffer
  import opened SemaphoreObject
  import Semlib2
  import StackTheorems

  class Machine {
    const threads: array<Thread>
    const empty: Semaphore
    const full: Semaphore
    const mutex: Semaphore
    const buffer: BoundedBuffer
    ghost var produced: seq<int>
    ghost var consumed: seq<int>

    ghost const Objects: set<object> :=
      {this, threads, empty, empty.calls, full, full.calls, mutex, mutex.calls, buffer, buffer.buf}

    ghost predicate Valid()
      reads buffer
    {
      && empty != full && full != mutex && mutex != empty
      && empty.calls != full.calls && full.calls != mutex.calls && mutex.calls != empty.calls
      && buffer.Valid()
    }

    ghost function Mem(): Memory
      requires buffer.Valid()
      reads this, buffer, buffer.buf
    {
      Memory(buffer.Model(), produced, consumed)
    }

    ghost function Sems(): Table<Semlib2.Sem>
      reads empty, empty.calls, full, full.calls, mutex, mutex.calls
    {
      Table(empty.Model(), full.Model(), mutex.Model())
    }

    ghost function Model(): State
      requires Valid()
      reads Objects
    {
      State(Sems(), threads[..], Mem())
    }

    // main: sem_init three times, then pthread_create for each entry of loops.
    constructor (cells: seq<int>, loops: seq<(Role, nat)>)
      requires |cells| > 0
      ensures Valid() && fresh(Objects)
      ensures Model() == Init(cells, loops)
    {
      var n := |loops|;
      empty := new Semaphore(|cells|, n);
      full := new Semaphore(0, n);
      mutex := new Semaphore(1, n);
      buffer := new BoundedBuffer(cells);
      threads := new Thread[n](i requires 0 <= i < n => Loop(loops[i].0, loops[i].1, 0));
      produced, consumed := [], [];
      new;
      assert threads[..] == Init(cells, loops).threads;
    }

    function Sem(k: SemId): Semaphore {
      match k case Empty => empty case Full => full case Mutex => mutex
    }

    // Runs action a if it is enabled, and changes nothing otherwise.
    method Perform(a: Action) returns (done: bool)
      requires Valid()
      modifies Objects
      ensures Valid()
      ensures done == Step(old(Model()), a).Some?
      ensures Model() == if done then Step(old(Model()), a).value else old(Model())
    {
      match a {
        case Spurious(k, tid) =>
          done := CallLibrary(k, Semlib2.Spurious(tid));
        case Act(tid, wake, v) =>
          if tid >= threads.Length {
            return false;
          }
          match threads[tid].at {
            case Done => done := false;
            case In(_) =>
              RunStatement(tid, v);
              done := true;
            case AtWait(k) => done := RunCall(tid, wake);
            case AtPost(k) => done := RunCall(tid, wake);
          }
      }
    }

    method CallLibrary(k: SemId, a: Semlib2.Action) returns (done: bool)
      requires Valid()
      modifies Sem(k), Sem(k).calls
      ensures done == Semlib2.Step(old(Sems().At(k)), a).Some?
      ensures Sems() == if done then old(Sems()).Put(k, Semlib2.Step(old(Sems().At(k)), a).value) else old(Sems())
    {
      done := Sem(k).Perform(a);
    }

    method RunStatement(tid: nat, v: int)
      requires Valid() && tid < threads.Length && threads[tid].at.In?
      modifies this, threads, buffer, buffer.buf
      ensures Valid() && Step(old(Model()), Act(tid, 0, v)) == Some(Model())
      ensures old(threads[tid].role == Producer && threads[tid].at == In(Copy)) ==>
                threads[tid].data == v && buffer.buf[..] == old(buffer.buf[..])[old(buffer.inIdx) := v]
    {
      var t := threads[tid];
      var data;
      ghost var mem := Mem();
      data, mem := buffer.Execute(t.role, t.at.st, t.data, v, mem);
      produced, consumed := mem.produced, mem.consumed;
      var at := match t.at.st case Copy => In(Advance) case Advance => In(Count) case Count => AtPost(Mutex);
      threads[tid] := t.(at := at, data := data);
      assert threads[..] == old(threads[..])[tid := t.(at := at, data := data)];
    }

    // One step of sem_wait or sem_post; on return the thread goes on.
    method RunCall(tid: nat, wake: nat) returns (done: bool)
      requires Valid() && tid < threads.Length && (threads[tid].at.AtWait? || threads[tid].at.AtPost?)
      modifies Objects
      ensures Valid()
      ensures done == CallStep(old(Model()), tid, wake).Some?
      ensures Model() == if done then CallStep(old(Model()), tid, wake).value else old(Model())
    {
      var t := threads[tid];
      var m := Sem(t.at.k);
      if tid >= m.calls.Length {
        return false;
      }
      ghost var sems, mem := Sems(), Mem();
      done := CallLibrary(t.at.k, LibraryAction(t, m.calls[tid], tid, wake));
      assert threads[..] == old(threads[..]) && Mem() == mem && (!done ==> Sems() == sems);
      if done && m.calls[tid] == Semlib2.Idle {
        threads[tid] := AfterCall(t);
        assert threads[..] == old(threads[..])[tid := AfterCall(t)];
      }
    }

    // Lets thread tid take one step if it can; wake is the thread its signal wakes, if any.
    method TryThread(tid: nat, v: int) returns (done: bool, wake: nat)
      requires Valid()
      modifies Objects
      ensures Valid()
      ensures done ==> Step(old(Model()), Act(tid, wake, v)) == Some(Model())
      ensures !done ==> Model() == old(Model())
      ensures !done ==> forall w: nat :: w < threads.Length ==> Step(Model(), Act(tid, w, v)) == None
    {
      ghost var s := Model();
      wake := 0;
      done := false;
      while wake < threads.Length
        invariant Valid() && Model() == s && wake <= threads.Length
        invariant forall w: nat :: w < wake ==> Step(s, Act(tid, w, v)) == None
      {
        done := Perform(Act(tid, wake, v));
        if done {
          return;
        }
        wake := wake + 1;
      }
    }

    // Lets the first thread that can move take one step.
    method StepSome(v: int) returns (done: bool, ghost a: Action)
      requires Valid() && Library(Model())
      modifies Objects
      ensures Valid()
      ensures done ==> a.Act? && Step(old(Model()), a) == Some(Model())
      ensures !done ==> Model() == old(Model()) && StackTheorems.Stuck(Model())
    {
      a := Act(0, 0, v);
      done := false;
      for tid := 0 to threads.Length
        invariant Valid() && Model() == old(Model())
        invariant forall t: nat, w: nat :: t < tid && w < threads.Length ==> Step(Model(), Act(t, w, v)) == None
      {
        var wake;
        done, wake := TryThread(tid, v);
        if done {
          a := Act(tid, wake, v);
          return;
        }
      }
      forall b: Action | b.Act? ensures Step(Model(), b) == None {
        SmallWake(Model(), b, v);
      }
    }

    // Runs whatever interleaving schedule asks for, skipping what is not enabled when its
    // turn comes.
    method Follow(schedule: seq<Action>, ghost start: State) returns (ghost run: seq<Action>)
      requires Valid() && Inv(start) && Model() == start
      modifies Objects
      ensures Valid() && Inv(Model()) && Exec(Step, start, run) == Some(Model())
      ensures run == Possible(Step, start, schedule)
    {
      for i := 0 to |schedule|
        invariant Valid() && Inv(Model())
        invariant Exec(Step, start, Possible(Step, start, schedule[..i])) == Some(Model())
      {
        ghost var before := Model();
        PossibleNext(Step, start, schedule, i, before);
        var done := Perform(schedule[i]);
        if done {
          StepInv(before, schedule[i]);
        }
      }
      assert schedule[..|schedule|] == schedule;
      run := Possible(Step, start, schedule);
    }

    // Lets threads run on until none can move.
    method RunOn(v: int, ghost start: State, ghost begun: seq<Action>) returns (ghost run: seq<Action>)
      requires Valid() && Inv(Model()) && Exec(Step, start, begun) == Some(Model())
      modifies Objects
      ensures Valid() && Exec(Step, start, run) == Some(Model()) && StackTheorems.Stuck(Model())
      ensures begun <= run
    {
      run := begun;
      var going := true;
      while going
        invariant Valid() && Inv(Model()) && Exec(Step, start, run) == Some(Model())
        invariant begun <= run
        invariant !going ==> StackTheorems.Stuck(Model())
        decreases going, StackTheorems.Rank(Model())
      {
        ghost var before, a := Model(), Act(0, 0, v);
        StackTheorems.RankIsNat(before);
        going, a := StepSome(v);
        if going {
          run := Extend(Step, start, run, before, a);
          StepInv(before, a);
          StackTheorems.StepRank(before, a);
          StackTheorems.RankIsNat(Model());
        }
      }
    }
  }

  // Whether a thread can move does not depend on the data it would write, nor on a wakeup
  // naming no thread.
  lemma {:induction false} SmallWake(s: State, b: Action, v: int)
    requires Library(s) && b.Act?
    requires forall t: nat, w: nat :: t < |s.threads| && w < |s.threads| ==> Step(s, Act(t, w, v)) == None
    ensures Step(s, b) == None
  {
    if b.tid < |s.threads| {
      var w := if b.wake < |s.threads| then b.wake else 0;
      assert Step(s, Act(b.tid, w, v)) == None;
      assert |s.sems.At(Empty).stages| == |s.sems.At(Full).stages| == |s.sems.At(Mutex).stages| == |s.threads|;
    }
  }

  // main, from sem_init to the last pthread_join: whatever the interleaving asked for first,
  // the program comes to rest, with all threads done exactly when the loops are balanced;
  // then everything produced has been consumed, in order, but for the difference.
  method StartAndJoin(cells: seq<int>, loops: seq<(Role, nat)>, schedule: seq<Action>, v: int)
    returns (m: Machine, ghost run: seq<Action>)
    requires |cells| > 0
    ensures m.Valid() && fresh(m.Objects)
    ensures Exec(Step, Init(cells, loops), run) == Some(m.Model()) && StackTheorems.Stuck(m.Model())
    ensures Possible(Step, Init(cells, loops), schedule) <= run
    ensures var supply, demand := Sum(loops, ProducerLoops), Sum(loops, ConsumerLoops);
            && (StackTheorems.Finished(m.Model()) <==> Balanced(supply, demand, |cells|))
            && (StackTheorems.Finished(m.Model()) ==> Settled(m.Mem(), supply, demand))
    ensures StackTheorems.Finished(m.Model()) ==> m.produced == Trace(Step, Generates, Init(cells, loops), run)
  {
    m := new Machine(cells, loops);
    InitInv(cells, loops);
    run := m.Follow(schedule, Init(cells, loops));
    run := m.RunOn(v, Init(cells, loops), run);
    StackTheorems.RunProducesGenerated(cells, loops, run);
    StackTheorems.MaximalRunFinishesIffBalanced(cells, loops, run);
  }
}
