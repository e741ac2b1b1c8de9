// How much a set of producer and consumer threads puts in and takes out, and the state
// they leave behind.
module Workload {
  import opened Sums
  import opened RingBuffer
  import opened Body

  // A thread is started with a role and the number of iterations of its loop.
  function ProducerLoops(l: (Role, nat)): int {
    if l.0 == Producer then l.1 else 0
  }

  function ConsumerLoops(l: (Role, nat)): int {
    if l.0 == Consumer then l.1 else 0
  }

  // A rank of factor for each iteration, summed over threads that have just been started.
  lemma {:induction false} StartRank<T>(ts: seq<T>, loops: seq<(Role, nat)>, rank: T -> int, factor: int)
    requires |ts| == |loops| && forall i: nat :: i < |ts| ==> rank(ts[i]) == factor * loops[i].1
    ensures Sum(ts, rank) == factor * (Sum(loops, ProducerLoops) + Sum(loops, ConsumerLoops))
  {
    if ts != [] {
      StartRank(ts[1..], loops[1..], rank, factor);
      var rest := Sum(loops[1..], ProducerLoops) + Sum(loops[1..], ConsumerLoops);
      assert factor * (loops[0].1 + rest) == factor * loops[0].1 + factor * rest;
    }
  }

  // A caller can check this before starting the threads.
  predicate Balanced(supply: int, demand: int, capacity: int) {
    demand <= supply <= demand + capacity
  }

  // A loop body n times over.
  function Repeat<T>(body: seq<T>, n: int): seq<T> {
    if n <= 0 then [] else body + Repeat(body, n - 1)
  }

  // The rest of a loop body from deed p on, and n bodies after it.
  function Onwards<T>(body: seq<T>, p: nat, n: int): seq<T>
    requires p <= |body|
  {
    body[p..] + Repeat(body, n)
  }

  lemma {:induction false} OneDeed<T>(body: seq<T>, p: nat, n: int)
    requires p < |body|
    ensures Onwards(body, p, n) == [body[p]] + Onwards(body, p + 1, n)
    ensures n > 0 ==> Onwards(body, |body|, n) == Onwards(body, 0, n - 1)
    ensures n <= 0 ==> Onwards(body, |body|, n) == []
  {
    assert body[p..] == [body[p]] + body[p + 1..];
    assert body[|body|..] == [] && body[0..] == body;
  }

  // What is left when all threads are done: everything produced, in order, is consumed or
  // still in the ring; with as many consumed as produced the ring is empty.
  ghost predicate Settled(m: Memory, supply: int, demand: int) {
    && |m.produced| == supply && |m.consumed| == demand
    && 0 <= m.ring.counter == supply - demand <= |m.ring.buf|
    && m.produced == m.consumed + Stored(m.ring)
    && (supply == demand ==> m.consumed == m.produced && m.ring.inIdx == m.ring.outIdx)
  }

  lemma {:induction false} AllCountedIsSettled(m: Memory, supply: int, demand: int)
    requires Consistent(m, 0, 0) && |m.produced| == supply && |m.consumed| == demand
    ensures Settled(m, supply, demand)
  {
    Conservation(m);
    if supply == demand {
      assert Stored(m.ring) == [];
    }
  }
}
