// split.c and merge.c: copying files through a reused buffer, a chunk at a time.
module Files {

  type Bytes = seq<int>

  // A FILE: its bytes and the position of the next read.
  class File {
    var bytes: Bytes
    var pos: nat

    ghost predicate Valid()
      reads this
    {
      pos <= |bytes|
    }

    // What is still to be read.
    ghost function Rest(): Bytes
      requires Valid()
      reads this
    {
      bytes[pos..]
    }

    constructor (bytes: Bytes)
      ensures Valid() && this.bytes == bytes && pos == 0
    {
      this.bytes := bytes;
      pos := 0;
    }

    // fread: up to count bytes, as many as there are, to the front of buf.
    method Read(buf: array<int>, count: nat) returns (n: nat)
      requires Valid() && count <= buf.Length
      modifies this`pos, buf
      ensures Valid() && bytes == old(bytes)
      ensures n == (if count <= |old(Rest())| then count else |old(Rest())|)
      ensures n <= count && old(Rest()) == buf[..n] + Rest()
    {
      n := if count <= |bytes| - pos then count else |bytes| - pos;
      for k := 0 to n
        invariant bytes == old(bytes) && pos == old(pos) && pos + n <= |bytes|
        invariant forall j :: 0 <= j < k ==> buf[j] == bytes[pos + j]
      {
        buf[k] := bytes[pos + k];
      }
      assert buf[..n] == bytes[pos..pos + n];
      pos := pos + n;
    }

    // fwrite: appends the first count bytes of buf.
    method Write(buf: array<int>, count: nat)
      requires Valid() && count <= buf.Length
      modifies this`bytes
      ensures Valid() && bytes == old(bytes) + buf[..count]
    {
      bytes := bytes + buf[..count];
    }
  }

  // split: the first half of src goes to dst1, the rest to dst2.
  method Split(src: File, dst1: File, dst2: File, maxBuf: nat)
    requires maxBuf >= 1 && src.Valid() && dst1.Valid() && dst2.Valid()
    requires src != dst1 && src != dst2 && dst1 != dst2
    requires src.pos == 0 && dst1.bytes == [] && dst2.bytes == []
    modifies src`pos, dst1`bytes, dst2`bytes
    ensures |dst1.bytes| == |src.bytes| / 2
    ensures dst1.bytes + dst2.bytes == src.bytes
  {
    var half := |src.bytes| / 2;
    var buf := new int[maxBuf];
    ghost var all := src.bytes;
    assert src.Rest() == all;
    CopyFirst(src, dst1, buf, half);
    ghost var first, rest := dst1.bytes, src.Rest();
    CopyRest(src, dst2, buf);
    assert first + rest == [] + all == all;
    assert dst1.bytes == first && dst2.bytes == [] + rest == rest;
  }

  // The first loop: size bytes, by chunks of at most the buffer.
  method CopyFirst(src: File, dst: File, buf: array<int>, size: nat)
    requires buf.Length >= 1 && src.Valid() && dst.Valid() && src != dst && size <= |src.Rest()|
    modifies src`pos, dst`bytes, buf
    ensures src.Valid() && dst.Valid() && |dst.bytes| == |old(dst.bytes)| + size
    ensures dst.bytes + src.Rest() == old(dst.bytes) + old(src.Rest())
  {
    var hSize := size;
    while hSize > 0
      invariant src.Valid() && dst.Valid() && 0 <= hSize <= |src.Rest()|
      invariant |dst.bytes| + hSize == |old(dst.bytes)| + size
      invariant dst.bytes + src.Rest() == old(dst.bytes) + old(src.Rest())
      decreases hSize
    {
      var count := if hSize > buf.Length then buf.Length else hSize;
      ghost var written, rest := dst.bytes, src.Rest();
      var n := src.Read(buf, count);
      assert n == count;
      dst.Write(buf, count);
      assert dst.bytes + src.Rest() == written + rest;
      hSize := hSize - count;
    }
  }

  // while ((count = fread(buf, 1, MAX_BUF, src)) > 0) fwrite(buf, 1, count, dst);
  method CopyRest(src: File, dst: File, buf: array<int>)
    requires buf.Length >= 1 && src.Valid() && dst.Valid() && src != dst
    modifies src`pos, dst`bytes, buf
    ensures src.Valid() && dst.Valid() && src.Rest() == []
    ensures dst.bytes == old(dst.bytes) + old(src.Rest())
  {
    var count: nat := src.Read(buf, buf.Length);
    while count > 0
      invariant src.Valid() && dst.Valid() && count <= buf.Length
      invariant count == 0 ==> src.Rest() == []
      invariant dst.bytes + buf[..count] + src.Rest() == old(dst.bytes) + old(src.Rest())
      decreases |src.Rest()| + count
    {
      dst.Write(buf, count);
      ghost var written := dst.bytes;
      count := src.Read(buf, buf.Length);
      assert written + (buf[..count] + src.Rest()) == written + buf[..count] + src.Rest();
    }
  }

  // merge: the bytes of src1 and then those of src2.
  method Merge(src1: File, src2: File, dst: File, maxBuf: nat)
    requires maxBuf >= 1 && src1.Valid() && src2.Valid() && dst.Valid()
    requires src1 != dst && src2 != dst && src1 != src2
    requires src1.pos == 0 && src2.pos == 0 && dst.bytes == []
    modifies src1`pos, src2`pos, dst`bytes
    ensures dst.bytes == src1.bytes + src2.bytes
  {
    var buf := new int[maxBuf];
    CopyRest(src1, dst, buf);
    assert dst.bytes == src1.bytes;
    CopyRest(src2, dst, buf);
  }

  // Splitting a file and merging the parts, with any two buffer sizes, gives it back.
  method SplitThenMerge(bytes: Bytes, splitBuf: nat, mergeBuf: nat) returns (merged: Bytes)
    requires splitBuf >= 1 && mergeBuf >= 1
    ensures merged == bytes
  {
    var src := new File(bytes);
    var dst1 := new File([]);
    var dst2 := new File([]);
    Split(src, dst1, dst2, splitBuf);
    var part1 := new File(dst1.bytes);
    var part2 := new File(dst2.bytes);
    var dst := new File([]);
    Merge(part1, part2, dst, mergeBuf);
    merged := dst.bytes;
  }
}
