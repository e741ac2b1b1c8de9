// prodcons.h: BoundedBufferType as a record updated in place.
module SharedBuffer {
  import opened RingBuffer
  import opened Body

  class BoundedBuffer {
    const buf: array<int>
    var inIdx: nat
    var outIdx: nat
    var counter: int

    ghost predicate Valid()
      reads this
    {
      inIdx < buf.Length && outIdx < buf.Length
    }

    function Model(): Ring
      requires Valid()
      reads this, buf
    {
      RawRing.Ring(buf[..], inIdx, outIdx, counter)
    }

    constructor (cells: seq<int>)
      requires |cells| > 0
      ensures Valid() && Model() == NewRing(cells) && fresh(buf)
    {
      buf := new int[|cells|](i requires 0 <= i < |cells| => cells[i]);
      inIdx, outIdx, counter := 0, 0, 0;
      new;
      assert buf[..] == cells;
    }

    // One statement of the critical section, on the caller's local data.
    method Execute(role: Role, st: Statement, data: int, v: int, ghost m: Memory)
      returns (local: int, ghost next: Memory)
      requires Valid() && m.ring == Model()
      modifies this, buf
      ensures Valid() && next.ring == Model()
      ensures (local, next) == Run(role, st, data, m, v)
    {
      local := data;
      next := Run(role, st, data, m, v).1;
      match (role, st) {
        case (Producer, Copy) =>
          local := v;
          buf[inIdx] := local;
        case (Producer, Advance) => inIdx := (inIdx + 1) % buf.Length;
        case (Producer, Count) => counter := counter + 1;
        case (Consumer, Copy) => local := buf[outIdx];
        case (Consumer, Advance) => outIdx := (outIdx + 1) % buf.Length;
        case (Consumer, Count) => counter := counter - 1;
      }
    }
  }
}
