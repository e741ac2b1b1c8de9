// The statements every producer and consumer of 6_Synchronization runs between taking
// and releasing exclusive access, and their refinement of the bounded queue.
module Body {
  import opened Options
  import opened Runs
  import opened RingBuffer
  import BoundedQueue

  datatype Role = Producer | Consumer

  // Copy the item, advance the index, update the counter.
  datatype Statement = Copy | Advance | Count

  // Memory and the thread's local data after one statement; v is what rand() gives a
  // producer that copies.
  function Run(role: Role, st: Statement, data: int, m: Memory, v: int): (int, Memory) {
    match (role, st)
    case (Producer, Copy) => (v, m.(ring := Write(m.ring, v)))
    case (Producer, Advance) => (data, m.(ring := AdvanceIn(m.ring)))
    case (Producer, Count) => (data, Memory(Recount(m.ring, 1), m.produced + [data], m.consumed))
    case (Consumer, Copy) => (Read(m.ring), m)
    case (Consumer, Advance) => (data, m.(ring := AdvanceOut(m.ring)))
    case (Consumer, Count) => (data, Memory(Recount(m.ring, -1), m.produced, m.consumed + [data]))
  }

  // The condition of the wait loops of prodcons_m.c and prodcons_t.c.
  predicate MustWait(role: Role, r: Ring) {
    if role == Producer then r.counter == |r.buf| else r.counter == 0
  }

  // Whether a thread in front of st has moved its index ahead of the counter.
  function Ahead(st: Statement): int {
    if st == Count then 1 else 0
  }

  // What a thread in front of st may rely on: room and its item stored for a producer,
  // an item and the oldest one read for a consumer.
  ghost predicate Ready(role: Role, st: Statement, data: int, m: Memory)
    requires m.consumed <= m.produced
  {
    match role
    case Producer => m.ring.counter < |m.ring.buf| && (st != Copy ==> NextCell(m) == data)
    case Consumer => |m.consumed| < |m.produced| && (st != Copy ==> data == m.produced[|m.consumed|])
  }

  lemma {:induction false} ProducerKeeps(st: Statement, data: int, m: Memory, v: int, cAhead: int)
    requires Consistent(m, Ahead(st), cAhead) && Ready(Producer, st, data, m)
    ensures var (d, next) := Run(Producer, st, data, m, v);
            && Consistent(next, if st == Advance then 1 else 0, cAhead)
            && (st == Copy ==> Ready(Producer, Advance, d, next))
            && (st == Advance ==> Ready(Producer, Count, d, next))
            && forall other, w :: Ready(Consumer, other, w, m) ==> Ready(Consumer, other, w, next)
  {
    match st
    case Copy => WriteKeeps(m, cAhead, v);
    case Advance => AdvanceInKeeps(m, cAhead);
    case Count => CountUpKeeps(m, cAhead, data);
  }

  lemma {:induction false} ConsumerKeeps(st: Statement, data: int, m: Memory, v: int, pAhead: int)
    requires Consistent(m, pAhead, Ahead(st)) && Ready(Consumer, st, data, m)
    ensures var (d, next) := Run(Consumer, st, data, m, v);
            && Consistent(next, pAhead, if st == Advance then 1 else 0)
            && (st == Copy ==> Ready(Consumer, Advance, d, next))
            && (st == Advance ==> Ready(Consumer, Count, d, next))
            && forall other, w :: Ready(Producer, other, w, m) ==> Ready(Producer, other, w, next)
  {
    match st
    case Copy => ReadIsOldest(m, pAhead);
    case Advance => AdvanceOutKeeps(m, pAhead);
    case Count => CountDownKeeps(m, pAhead, data);
  }

  // The queue a memory stands for, and the queue operation a statement performs.
  function QueueOf(m: Memory): BoundedQueue.Queue {
    BoundedQueue.Queue(|m.ring.buf|, if |m.consumed| <= |m.produced| then m.produced[|m.consumed|..] else [],
                       m.produced, m.consumed)
  }

  function QueueOp(role: Role, st: Statement, data: int): seq<BoundedQueue.Event> {
    if st != Count then []
    else if role == Producer then [BoundedQueue.Put(data)]
    else [BoundedQueue.Get(data)]
  }

  lemma {:induction false} StatementRefinesQueue(role: Role, st: Statement, data: int, m: Memory, v: int)
    requires m.consumed <= m.produced && m.ring.counter == |m.produced| - |m.consumed|
    requires Ready(role, st, data, m)
    ensures Exec(BoundedQueue.Step, QueueOf(m), QueueOp(role, st, data)) == Some(QueueOf(Run(role, st, data, m, v).1))
  {
    if st == Count {
      assert QueueOp(role, st, data)[1..] == [];
      var items, next := QueueOf(m).items, QueueOf(Run(role, st, data, m, v).1).items;
      assert role == Producer ==> next == items + [data];
      assert role == Consumer ==> next == items[1..];
    }
  }
}
