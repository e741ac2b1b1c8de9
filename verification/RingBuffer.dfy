// 6_Synchronization/prodcons.h: the ring buffer and the three statements of each
// critical section, with what each statement keeps.
module RingBuffer {

  datatype RawRing = Ring(buf: seq<int>, inIdx: int, outIdx: int, counter: int)

  type Ring = r: RawRing | 0 <= r.inIdx < |r.buf| && 0 <= r.outIdx < |r.buf|
    witness RawRing.Ring([0], 0, 0, 0)

  function NewRing(cells: seq<int>): Ring
    requires |cells| > 0
  {
    RawRing.Ring(cells, 0, 0, 0)
  }

  // Buf.buf[Buf.in].data = data
  function Write(r: Ring, v: int): Ring {
    r.(buf := r.buf[r.inIdx := v])
  }

  // Buf.in = (Buf.in + 1) % MAX_BUF
  function AdvanceIn(r: Ring): Ring {
    r.(inIdx := (r.inIdx + 1) % |r.buf|)
  }

  // data = Buf.buf[Buf.out].data
  function Read(r: Ring): int {
    r.buf[r.outIdx]
  }

  // Buf.out = (Buf.out + 1) % MAX_BUF
  function AdvanceOut(r: Ring): Ring {
    r.(outIdx := (r.outIdx + 1) % |r.buf|)
  }

  function Recount(r: Ring, change: int): Ring {
    r.(counter := r.counter + change)
  }

  // The ring together with the logs of produced and consumed values. An item counts as
  // produced when counter++ runs and as consumed when counter-- runs.
  datatype Memory = Memory(ring: Ring, produced: seq<int>, consumed: seq<int>)

  // Cell j % N holds the j-th produced item until it is consumed; pAhead and cAhead are
  // 1 when in and out have moved but the counter has not, 0 otherwise.
  ghost predicate Consistent(m: Memory, pAhead: int, cAhead: int) {
    var n := |m.ring.buf|;
    && 0 <= pAhead <= 1 && 0 <= cAhead <= 1
    && m.consumed <= m.produced
    && m.ring.counter == |m.produced| - |m.consumed| <= n
    && m.ring.inIdx == (|m.produced| + pAhead) % n
    && m.ring.outIdx == (|m.consumed| + cAhead) % n
    && forall j: nat :: |m.consumed| <= j < |m.produced| ==> m.ring.buf[j % n] == m.produced[j]
  }

  // The cell the next produced item goes to.
  function NextCell(m: Memory): int {
    m.ring.buf[|m.produced| % |m.ring.buf|]
  }

  lemma {:induction false} MultipleIsFar(d: int, n: int)
    requires n > 0
    ensures d > 0 ==> d * n >= n
    ensures d < 0 ==> d * n <= -n
  {
  }

  lemma {:induction false} ModStep(x: int, n: int)
    requires n > 0
    ensures (x % n + 1) % n == (x + 1) % n
  {
    var q, r := x / n, x % n;
    if r + 1 < n {
      UniqueMod(x + 1, n, q, r + 1);
      UniqueMod(r + 1, n, 0, r + 1);
    } else {
      assert (q + 1) * n == q * n + n;
      UniqueMod(x + 1, n, q + 1, 0);
      UniqueMod(r + 1, n, 1, 0);
    }
  }

  lemma {:induction false} UniqueMod(x: int, n: int, q: int, r: int)
    requires n > 0 && 0 <= r < n && x == q * n + r
    ensures x % n == r
  {
    var d := x / n - q;
    assert d * n == r - x % n;
    MultipleIsFar(d, n);
  }

  // Items less than N apart never share a cell.
  lemma {:induction false} DistinctCells(j: int, k: int, n: int)
    requires n > 0 && j < k < j + n
    ensures j % n != k % n
  {
    var d := k / n - j / n;
    assert d * n == k - j - (k % n - j % n);
    MultipleIsFar(d, n);
  }

  // The producer's statements, with a free cell ahead.
  lemma {:induction false} WriteKeeps(m: Memory, cAhead: int, v: int)
    requires Consistent(m, 0, cAhead) && m.ring.counter < |m.ring.buf|
    ensures var next := m.(ring := Write(m.ring, v));
            Consistent(next, 0, cAhead) && NextCell(next) == v
  {
    var n := |m.ring.buf|;
    forall j: nat | |m.consumed| <= j < |m.produced|
      ensures Write(m.ring, v).buf[j % n] == m.produced[j]
    {
      DistinctCells(j, |m.produced|, n);
    }
  }

  lemma {:induction false} AdvanceInKeeps(m: Memory, cAhead: int)
    requires Consistent(m, 0, cAhead)
    ensures var next := m.(ring := AdvanceIn(m.ring));
            Consistent(next, 1, cAhead) && NextCell(next) == NextCell(m)
  {
    ModStep(|m.produced|, |m.ring.buf|);
  }

  lemma {:induction false} CountUpKeeps(m: Memory, cAhead: int, v: int)
    requires Consistent(m, 1, cAhead) && NextCell(m) == v && m.ring.counter < |m.ring.buf|
    ensures Consistent(Memory(Recount(m.ring, 1), m.produced + [v], m.consumed), 0, cAhead)
  {
    var n := |m.ring.buf|;
    forall j: nat | |m.consumed| <= j < |m.produced| + 1
      ensures m.ring.buf[j % n] == (m.produced + [v])[j]
    {
    }
  }

  // The consumer's statements, with an item to take.
  lemma {:induction false} ReadIsOldest(m: Memory, pAhead: int)
    requires Consistent(m, pAhead, 0) && m.ring.counter > 0
    ensures Read(m.ring) == m.produced[|m.consumed|]
  {
  }

  lemma {:induction false} AdvanceOutKeeps(m: Memory, pAhead: int)
    requires Consistent(m, pAhead, 0)
    ensures Consistent(m.(ring := AdvanceOut(m.ring)), pAhead, 1)
  {
    ModStep(|m.consumed|, |m.ring.buf|);
  }

  lemma {:induction false} CountDownKeeps(m: Memory, pAhead: int, v: int)
    requires Consistent(m, pAhead, 1) && m.ring.counter > 0 && v == m.produced[|m.consumed|]
    ensures Consistent(Memory(Recount(m.ring, -1), m.produced, m.consumed + [v]), pAhead, 0)
  {
  }

  // The counter cells from out on, oldest first.
  function Stored(r: Ring): seq<int>
    requires 0 <= r.counter <= |r.buf|
  {
    seq(r.counter, k requires 0 <= k < r.counter => r.buf[(r.outIdx + k) % |r.buf|])
  }

  lemma {:induction false} ModSum(x: int, k: int, n: int)
    requires n > 0
    ensures (x % n + k) % n == (x + k) % n
  {
    var q := x / n;
    var q2, r2 := (x % n + k) / n, (x % n + k) % n;
    assert x + k == (q + q2) * n + r2;
    UniqueMod(x + k, n, q + q2, r2);
  }

  // Outside the critical section nothing is lost, duplicated or reordered: the
  // produced log is the consumed log followed by the stored cells.
  lemma {:induction false} Conservation(m: Memory)
    requires Consistent(m, 0, 0)
    ensures m.produced == m.consumed + Stored(m.ring)
    ensures m.ring.inIdx == (m.ring.outIdx + m.ring.counter) % |m.ring.buf|
  {
    var n := |m.ring.buf|;
    var items := Stored(m.ring);
    forall k | 0 <= k < m.ring.counter
      ensures items[k] == m.produced[|m.consumed| + k]
    {
      ModSum(|m.consumed|, k, n);
    }
    ModSum(|m.consumed|, m.ring.counter, n);
  }
}
