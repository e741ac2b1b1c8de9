// The specification all bounded buffers of 6_Synchronization share: an atomic FIFO queue.
module BoundedQueue {
  import opened Options
  import opened Runs

  datatype Queue = Queue(capacity: nat, items: seq<int>, puts: seq<int>, gets: seq<int>)

  datatype Event = Put(v: int) | Get(v: int)

  // Put is enabled when the queue is not full; Get when it is not empty, and it
  // returns the oldest item.
  function Step(q: Queue, e: Event): Option<Queue> {
    match e
    case Put(v) =>
      if |q.items| < q.capacity then Some(q.(items := q.items + [v], puts := q.puts + [v])) else None
    case Get(v) =>
      if |q.items| > 0 && q.items[0] == v
      then Some(q.(items := q.items[1..], gets := q.gets + [v])) else None
  }

  function Init(capacity: nat): Queue {
    Queue(capacity, [], [], [])
  }

  // What goes in comes out, once, in order.
  ghost predicate Fifo(q: Queue) {
    q.puts == q.gets + q.items && |q.items| <= q.capacity
  }

  lemma {:induction false} RunIsFifo(capacity: nat, run: seq<Event>)
    requires Exec(Step, Init(capacity), run).Some?
    ensures Fifo(Exec(Step, Init(capacity), run).value)
  {
    forall q, e | Fifo(q) && Step(q, e).Some? ensures Fifo(Step(q, e).value) {
      if e.Get? {
        assert q.items == [e.v] + q.items[1..];
      }
    }
    Invariance(Step, Fifo, Init(capacity), run);
  }
}
