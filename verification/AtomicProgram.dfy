// producer_s.c and consumer_s.c as a program over the shared memory segment and the three
// kernel semaphores, updated in place.
module AtomicProgram {
  import opened Options
  import opened Runs
  import opened Sums
  import opened RingBuffer
  import opened Body
  import opened Program
  import opened Workload
  import opened AtomicProdCons
  import opened AtomicTheorems
  import opened SharedBuffer

  class Machine {
    var sval: Table<int>
    const threads: array<Thread>
    const buffer: BoundedBuffer
    ghost var produced: seq<int>
    ghost var consumed: seq<int>

    ghost const Objects: set<object> := {this, threads, buffer, buffer.buf}

    ghost function Mem(): Memory
      requires buffer.Valid()
      reads this, buffer, buffer.buf
    {
      Memory(buffer.Model(), produced, consumed)
    }

    ghost function Model(): State
      requires buffer.Valid()
      reads Objects
    {
      State(sval, threads[..], Mem())
    }

    // semInitValue three times, on a zeroed segment.
    constructor (cells: seq<int>, loops: seq<(Role, nat)>)
      requires |cells| > 0
      ensures buffer.Valid() && fresh(Objects)
      ensures Model() == Init(cells, loops)
    {
      sval := Table(|cells|, 0, 1);
      buffer := new BoundedBuffer(cells);
      threads := new Thread[|loops|](i requires 0 <= i < |loops| => Loop(loops[i].0, loops[i].1, 0));
      produced, consumed := [], [];
      new;
      assert threads[..] == Init(cells, loops).threads;
    }

    // Lets a thread take its next step if it is not blocked, and changes nothing otherwise.
    method Perform(a: Action) returns (done: bool)
      requires buffer.Valid()
      modifies Objects
      ensures buffer.Valid()
      ensures done == Step(old(Model()), a).Some?
      ensures Model() == if done then Step(old(Model()), a).value else old(Model())
    {
      if a.tid >= threads.Length {
        return false;
      }
      done := true;
      match threads[a.tid].at {
        case Done => done := false;
        case AtWait(k) => done := SemOp(a.tid, -1);
        case AtPost(k) => done := SemOp(a.tid, 1);
        case In(_) => RunStatement(a.tid, a.v);
      }
    }

    // semop with sem_op == change on the semaphore the thread stands at.
    method SemOp(tid: nat, change: int) returns (done: bool)
      requires buffer.Valid() && tid < threads.Length
      requires if change == -1 then threads[tid].at.AtWait? else change == 1 && threads[tid].at.AtPost?
      modifies this, threads
      ensures done == Step(old(Model()), Act(tid, 0)).Some?
      ensures Model() == if done then Step(old(Model()), Act(tid, 0)).value else old(Model())
    {
      var t := threads[tid];
      done := change > 0 || sval.At(t.at.k) > 0;
      if done {
        sval := sval.Put(t.at.k, sval.At(t.at.k) + change);
        threads[tid] := AfterCall(t);
        assert threads[..] == old(threads[..])[tid := AfterCall(t)];
      }
    }

    method RunStatement(tid: nat, v: int)
      requires buffer.Valid() && tid < threads.Length && threads[tid].at.In?
      modifies this, threads, buffer, buffer.buf
      ensures buffer.Valid() && Step(old(Model()), Act(tid, v)) == Some(Model())
      ensures old(threads[tid].role == Producer && threads[tid].at == In(Copy)) ==>
                threads[tid].data == v && buffer.buf[..] == old(buffer.buf[..])[old(buffer.inIdx) := v]
    {
      var t := threads[tid];
      var data;
      ghost var mem := Mem();
      data, mem := buffer.Execute(t.role, t.at.st, t.data, v, mem);
      produced, consumed := mem.produced, mem.consumed;
      var at := match t.at.st case Copy => In(Advance) case Advance => In(Count) case Count => AtPost(Mutex);
      threads[tid] := t.(at := at, data := data);
      assert threads[..] == old(threads[..])[tid := t.(at := at, data := data)];
    }

    // Lets the first thread that can move take one step.
    method StepSome(v: int) returns (done: bool, ghost a: Action)
      requires buffer.Valid()
      modifies Objects
      ensures buffer.Valid()
      ensures done ==> Step(old(Model()), a) == Some(Model())
      ensures !done ==> Model() == old(Model()) && Stuck(Model())
    {
      a := Act(0, v);
      done := false;
      for tid := 0 to threads.Length
        invariant buffer.Valid() && Model() == old(Model())
        invariant forall t: nat :: t < tid ==> Step(Model(), Act(t, v)) == None
      {
        done := Perform(Act(tid, v));
        if done {
          a := Act(tid, v);
          return;
        }
      }
      forall b: Action ensures Step(Model(), b) == None {
        assert b.tid < threads.Length ==> Step(Model(), Act(b.tid, v)) == None;
      }
    }

    // Runs whatever interleaving schedule asks for, skipping what is not enabled when its
    // turn comes.
    method Follow(schedule: seq<Action>, ghost start: State) returns (ghost run: seq<Action>)
      requires buffer.Valid() && Inv(start) && Model() == start
      modifies Objects
      ensures buffer.Valid() && Inv(Model()) && Exec(Step, start, run) == Some(Model())
      ensures run == Possible(Step, start, schedule)
    {
      for i := 0 to |schedule|
        invariant buffer.Valid() && Inv(Model())
        invariant Exec(Step, start, Possible(Step, start, schedule[..i])) == Some(Model())
      {
        ghost var before := Model();
        PossibleNext(Step, start, schedule, i, before);
        var done := Perform(schedule[i]);
        if done {
          StepInv(before, schedule[i]);
        }
      }
      assert schedule[..|schedule|] == schedule;
      run := Possible(Step, start, schedule);
    }

    // Lets threads run on until none can move.
    method RunOn(v: int, ghost start: State, ghost begun: seq<Action>) returns (ghost run: seq<Action>)
      requires buffer.Valid() && Inv(Model()) && Exec(Step, start, begun) == Some(Model())
      modifies Objects
      ensures buffer.Valid() && Exec(Step, start, run) == Some(Model()) && Stuck(Model())
      ensures begun <= run
    {
      run := begun;
      var going := true;
      while going
        invariant buffer.Valid() && Inv(Model()) && Exec(Step, start, run) == Some(Model())
        invariant begun <= run
        invariant !going ==> Stuck(Model())
        decreases going, Rank(Model())
      {
        ghost var before, a := Model(), Act(0, v);
        RankIsNat(before);
        going, a := StepSome(v);
        if going {
          run := Extend(Step, start, run, before, a);
          StepInv(before, a);
          StepRank(before, a);
        }
      }
    }
  }

  // Any number of producer_s and consumer_s processes, from semInitValue to the last exit:
  // whatever the interleaving asked for first, they come to rest, all done exactly when the
  // loops are balanced, with everything produced consumed, in order, but for the difference.
  method StartAndJoin(cells: seq<int>, loops: seq<(Role, nat)>, schedule: seq<Action>, v: int)
    returns (m: Machine, ghost run: seq<Action>)
    requires |cells| > 0
    ensures m.buffer.Valid() && fresh(m.Objects)
    ensures Exec(Step, Init(cells, loops), run) == Some(m.Model()) && Stuck(m.Model())
    ensures Possible(Step, Init(cells, loops), schedule) <= run
    ensures var supply, demand := Sum(loops, ProducerLoops), Sum(loops, ConsumerLoops);
            && (Finished(m.Model()) <==> Balanced(supply, demand, |cells|))
            && (Finished(m.Model()) ==> Settled(m.Mem(), supply, demand))
    ensures Finished(m.Model()) ==> m.produced == Trace(Step, Generates, Init(cells, loops), run)
  {
    m := new Machine(cells, loops);
    InitInv(cells, loops);
    run := m.Follow(schedule, Init(cells, loops));
    run := m.RunOn(v, Init(cells, loops), run);
    RunProducesGenerated(cells, loops, run);
    MaximalRunFinishesIffBalanced(cells, loops, run);
  }
}
