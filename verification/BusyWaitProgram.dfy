// prodcons_t.c as a program over the shared buffer, updated in place by two threads.
module BusyWaitProgram {
  import opened Options
  import opened Runs
  import opened RingBuffer
  import opened Body
  import opened Workload
  import opened BusyWait
  import opened BusyWaitTheorems
  import opened SharedBuffer

  class Machine {
    var producer: Thread
    var consumer: Thread
    const buffer: BoundedBuffer
    ghost var produced: seq<int>
    ghost var consumed: seq<int>

    ghost const Objects: set<object> := {this, buffer, buffer.buf}

    ghost function Mem(): Memory
      requires buffer.Valid()
      reads this, buffer, buffer.buf
    {
      Memory(buffer.Model(), produced, consumed)
    }

    ghost function Model(): State
      requires buffer.Valid()
      reads Objects
    {
      State(producer, consumer, Mem())
    }

    constructor (cells: seq<int>, produce: nat, consume: nat)
      requires |cells| > 0
      ensures buffer.Valid() && fresh(Objects)
      ensures Model() == Init(cells, produce, consume)
    {
      producer, consumer := Loop(produce, 0), Loop(consume, 0);
      buffer := new BoundedBuffer(cells);
      produced, consumed := [], [];
    }

    method Goto(role: Role, t: Thread)
      modifies this`producer, this`consumer
      ensures producer == (if role == Producer then t else old(producer))
      ensures consumer == (if role == Consumer then t else old(consumer))
    {
      if role == Producer {
        producer := t;
      } else {
        consumer := t;
      }
    }

    // Runs action a if the thread is not done, and changes nothing otherwise.
    method Perform(a: Action) returns (done: bool)
      requires buffer.Valid()
      modifies Objects
      ensures buffer.Valid()
      ensures done == Step(old(Model()), a).Some?
      ensures Model() == if done then Step(old(Model()), a).value else old(Model())
    {
      var t := if a.role == Producer then producer else consumer;
      done := t.at != Done;
      match t.at {
        case Done =>
        case Poll =>
          if !(if a.role == Producer then buffer.counter == buffer.buf.Length else buffer.counter == 0) {
            Goto(a.role, t.(at := In(Copy)));
          }
        case In(st) =>
          if st == Count {
            Goto(a.role, t.(at := Store, loaded := buffer.counter));
          } else {
            RunStatement(a.role, st, t, a.v);
          }
        case Store =>
          buffer.counter := t.loaded + Change(a.role);
          if a.role == Producer {
            produced := produced + [t.data];
          } else {
            consumed := consumed + [t.data];
          }
          Goto(a.role, Loop(t.left - 1, t.data));
      }
    }

    method RunStatement(role: Role, st: Statement, t: Thread, v: int)
      requires buffer.Valid() && st != Count && t == Who(Model(), role) && t.at == In(st)
      modifies Objects
      ensures buffer.Valid() && Step(old(Model()), BusyWait.Act(role, v)) == Some(Model())
    {
      var data;
      ghost var mem := Mem();
      data, mem := buffer.Execute(role, st, t.data, v, mem);
      Goto(role, t.(at := In(if st == Copy then Advance else Count), data := data));
    }

    // Lets a thread that is not busy waiting take one step, if there is one.
    method StepSome(v: int) returns (done: bool, ghost a: Action)
      requires buffer.Valid()
      modifies Objects
      ensures buffer.Valid()
      ensures done ==> Step(old(Model()), a) == Some(Model()) && !Waits(old(Model()), a)
      ensures !done ==> Model() == old(Model()) && Stuck(Model())
    {
      var role := Producer;
      if producer.at == Done || (producer.at == Poll && buffer.counter == buffer.buf.Length) {
        role := Consumer;
      }
      a := BusyWait.Act(role, v);
      if role == Consumer && (consumer.at == Done || (consumer.at == Poll && buffer.counter == 0)) {
        return false, a;
      }
      done := Perform(BusyWait.Act(role, v));
    }

    // Runs whatever interleaving schedule asks for, skipping threads that are done.
    method Follow(schedule: seq<Action>, ghost start: State) returns (ghost run: seq<Action>)
      requires buffer.Valid() && Looping(producer) && Looping(consumer) && Model() == start
      modifies Objects
      ensures buffer.Valid() && Looping(producer) && Looping(consumer) && Exec(Step, start, run) == Some(Model())
      ensures run == Possible(Step, start, schedule)
    {
      for i := 0 to |schedule|
        invariant buffer.Valid() && Looping(producer) && Looping(consumer)
        invariant Exec(Step, start, Possible(Step, start, schedule[..i])) == Some(Model())
      {
        ghost var before := Model();
        PossibleNext(Step, start, schedule, i, before);
        var done := Perform(schedule[i]);
        if done {
          StepMoves(before, schedule[i]);
        }
      }
      assert schedule[..|schedule|] == schedule;
      run := Possible(Step, start, schedule);
    }

    // Goes on until nothing but busy waiting is left.
    method RunOn(v: int, ghost start: State, ghost begun: seq<Action>) returns (ghost run: seq<Action>)
      requires buffer.Valid() && Looping(producer) && Looping(consumer) && Exec(Step, start, begun) == Some(Model())
      modifies Objects
      ensures buffer.Valid() && Exec(Step, start, run) == Some(Model()) && Stuck(Model())
      ensures begun <= run
    {
      run := begun;
      var going := true;
      while going
        invariant buffer.Valid() && Looping(producer) && Looping(consumer)
        invariant Exec(Step, start, run) == Some(Model())
        invariant begun <= run
        invariant !going ==> Stuck(Model())
        decreases going, Rank(Model())
      {
        ghost var before, a := Model(), BusyWait.Act(Producer, v);
        going, a := StepSome(v);
        if going {
          run := Extend(Step, start, run, before, a);
          StepMoves(before, a);
        }
      }
    }
  }

  // main, from pthread_create to the last pthread_join: after any interleaving the threads
  // can be run until nothing but busy waiting is left. A tolerable main has kept its items
  // right; if the updates did not disturb each other, both loops are done exactly when they
  // are balanced, with everything produced consumed, in order, but for the difference.
  method StartAndJoin(cells: seq<int>, produce: nat, consume: nat, schedule: seq<Action>, v: int)
    returns (m: Machine, ghost run: seq<Action>)
    requires |cells| > 0
    ensures m.buffer.Valid() && fresh(m.Objects)
    ensures Exec(Step, Init(cells, produce, consume), run) == Some(m.Model()) && Stuck(m.Model())
    ensures Possible(Step, Init(cells, produce, consume), schedule) <= run
    ensures Finished(m.Model()) ==> m.produced == Trace(Step, Generates, Init(cells, produce, consume), run)
    ensures Tolerable(|cells|, produce, consume) ==> QueueRight(m.Mem())
    ensures Undisturbed(cells, produce, consume, run) ==>
              && (Finished(m.Model()) <==> Balanced(produce, consume, |cells|))
              && (Finished(m.Model()) ==> Settled(m.Mem(), produce, consume))
  {
    m := new Machine(cells, produce, consume);
    run := m.Follow(schedule, Init(cells, produce, consume));
    run := m.RunOn(v, Init(cells, produce, consume), run);
    RunProducesGenerated(cells, produce, consume, run);
    if Tolerable(|cells|, produce, consume) {
      TolerableRun(cells, produce, consume, run);
    }
    if Undisturbed(cells, produce, consume, run) {
      MaximalRunFinishesIffBalanced(cells, produce, consume, run);
    }
  }
}
