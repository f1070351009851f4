/** How a file is cut into parts: FilePartitionNum and CalcPartitionStart of src/util/util.cc, the
    client's read loop, and the server's length check. */
module Partition {
  import opened Arithmetic

  newtype byte = b: int | 0 <= b < 256

  const INT32_LIMIT: int := 0x8000_0000

  /** The value an int64 expression takes when returned as int32. */
  function AsInt32(x: int): int { (x + INT32_LIMIT) % (2 * INT32_LIMIT) - INT32_LIMIT }

  function PartCount(size: nat, p: nat): nat
    requires p > 0
  {
    size / p + (if size % p > 0 then 1 else 0)
  }

  function FilePartitionNum(size: nat, p: nat): int
    requires p > 0
  {
    AsInt32(PartCount(size, p))
  }

  function Start(part: int, p: nat): int { part * p }

  /** Inclusive end of a part; the source compares with `>` and not `>=`. */
  function End(size: nat, part: int, p: nat): int {
    if part * p + p - 1 > size then size - 1 else part * p + p - 1
  }

  method CalcPartitionStart(size: nat, part: int, p: nat) returns (start: int, end: int)
    ensures start == Start(part, p) && end == End(size, part, p)
    ensures end <= size && end - start < p
  {
    start := part * p;
    end := start + p - 1;
    if end > size {
      end := size - 1;
      return;
    }
  }

  /** The server's length check. */
  predicate Accepts(size: nat, part: int, p: nat, len: nat) {
    End(size, part, p) - Start(part, p) + 1 == len
  }

  function Min(a: int, b: int): int { if a < b then a else b }

  predicate InPart(size: nat, p: nat, part: int, off: int) {
    Start(part, p) <= off <= End(size, part, p)
  }

  // ---------- how many parts there are ----------

  /** There are parts exactly up to the one holding the last byte. */
  lemma LastPart(size: nat, p: nat)
    requires p > 0 && size > 0
    ensures PartCount(size, p) >= 1
    ensures PartCount(size, p) - 1 == (size - 1) / p
  {
    var n := PartCount(size, p);
    var d := size / p;
    assert d * p + size % p == size;
    if size % p > 0 {
      DivIs(size - 1, d, p);
    } else {
      assert (d - 1) * p == d * p - p;
      DivIs(size - 1, d - 1, p);
    }
  }

  lemma PartBelow(size: nat, p: nat, i: nat)
    requires p > 0 && size > 0
    ensures i < PartCount(size, p) <==> i * p < size
  {
    LastPart(size, p);
    var last := PartCount(size, p) - 1;
    DivIs(size - 1, last, p);
    if i < last {
      MulStep(i, last, p);
    } else if last < i {
      MulStep(last, i, p);
    }
  }

  // ---------- what the client cuts ----------

  /** A read of up to p bytes at an offset. */
  function SliceAt(src: seq<byte>, at: nat, p: nat): seq<byte> {
    if at >= |src| then [] else src[at..Min(at + p, |src|)]
  }

  lemma SliceLength(src: seq<byte>, at: nat, b: nat)
    ensures |SliceAt(src, at, b)| == if at >= |src| then 0 else Min(b, |src| - at)
  {
  }

  /** The i-th read of a file in blocks of p bytes. */
  function Slice(src: seq<byte>, p: nat, i: nat): seq<byte> { SliceAt(src, i * p, p) }

  lemma NextSlice(src: seq<byte>, p: nat, n: nat, pos: nat)
    requires p > 0 && pos < |src| && pos == Min(n * p, |src|)
    ensures n < PartCount(|src|, p)
    ensures Slice(src, p, n) == src[pos..pos + Min(p, |src| - pos)]
    ensures pos + Min(p, |src| - pos) == Min((n + 1) * p, |src|)
    ensures n + 1 == PartCount(|src|, p) <==> pos + Min(p, |src| - pos) == |src|
  {
    PartBelow(|src|, p, n);
    PartBelow(|src|, p, n + 1);
    assert (n + 1) * p == n * p + p;
  }

  /** The chunks cut when the first pos bytes were read. */
  predicate Cut(src: seq<byte>, p: nat, chunks: seq<seq<byte>>, pos: nat)
    requires p > 0
  {
    && pos == Min(|chunks| * p, |src|)
    && (if pos < |src| then |chunks| < PartCount(|src|, p) else |chunks| == PartCount(|src|, p))
    && (forall i :: 0 <= i < |chunks| ==> chunks[i] == Slice(src, p, i))
  }

  lemma NextCut(src: seq<byte>, p: nat, chunks: seq<seq<byte>>, pos: nat)
    requires p > 0 && pos < |src| && Cut(src, p, chunks, pos)
    ensures var next := pos + Min(p, |src| - pos);
            Cut(src, p, chunks + [src[pos..next]], next)
  {
    var n, next := |chunks|, pos + Min(p, |src| - pos);
    NextSlice(src, p, n, pos);
    if next < |src| { NextSlice(src, p, n + 1, next); }
  }

  /** `while (file.read(buffer, p) || file.gcount())`: the chunks, in order. */
  method ReadChunks(src: seq<byte>, p: nat) returns (chunks: seq<seq<byte>>)
    requires p > 0
    ensures |chunks| == PartCount(|src|, p)
    ensures forall i :: 0 <= i < |chunks| ==> chunks[i] == Slice(src, p, i)
  {
    chunks := [];
    var pos := 0;
    while pos < |src|
      invariant Cut(src, p, chunks, pos)
      decreases |src| - pos
    {
      NextCut(src, p, chunks, pos);
      var count := Min(p, |src| - pos);
      chunks := chunks + [src[pos..pos + count]];
      pos := pos + count;
    }
  }

  // ---------- exact tiling ----------

  predicate InSomePart(size: nat, p: nat, n: int, off: int) {
    exists k :: 0 <= k < n && InPart(size, p, k, off)
  }

  /** Each byte lies in exactly one of the first n parts, and no part sticks out of the file. */
  ghost predicate Tiles(size: nat, p: nat, n: int) {
    && (forall off :: 0 <= off < size ==> InSomePart(size, p, n, off))
    && (forall off, j, k :: 0 <= j < n && 0 <= k < n && InPart(size, p, j, off) && InPart(size, p, k, off) ==> j == k)
    && (forall k, off :: 0 <= k < n && InPart(size, p, k, off) ==> 0 <= off < size)
  }

  /** The file length at which the last part is one byte short of a full one. */
  predicate OneShort(size: nat, p: nat)
    requires p > 0
  {
    p >= 2 && size % p == p - 1
  }

  lemma FullEnd(size: nat, p: nat, i: nat)
    requires p > 0 && size > 0 && i < PartCount(size, p)
    ensures i * p + p - 1 == size <==> i == PartCount(size, p) - 1 && OneShort(size, p)
  {
    PartBelow(size, p, i);
    LastPart(size, p);
    DivIs(size, i, p);
    DivIs(size - 1, i, p);
    var d := size / p;
    assert size == d * p + size % p;
    if OneShort(size, p) { DivIs(size - 1, d, p); }
  }

  lemma EndOfPart(size: nat, p: nat, i: nat)
    requires p > 0 && i < PartCount(size, p)
    ensures size > 0 && i * p < size
    ensures End(size, i, p) ==
            if i == PartCount(size, p) - 1 && OneShort(size, p) then size
            else Min(i * p + p, size) - 1
  {
    PartBelow(size, p, i);
    FullEnd(size, p, i);
  }

  /** Which of the client's chunks the server takes: all of them, except the last one when the
      last part is exactly one byte short. */
  lemma ChunkAccepted(src: seq<byte>, p: nat, i: nat)
    requires p > 0 && i < PartCount(|src|, p)
    ensures Accepts(|src|, i, p, |Slice(src, p, i)|)
            <==> !(i == PartCount(|src|, p) - 1 && OneShort(|src|, p))
  {
    EndOfPart(|src|, p, i);
    if i == PartCount(|src|, p) - 1 && OneShort(|src|, p) {
      assert |Slice(src, p, i)| <= |src| - i * p;
    }
  }

  lemma Covered(size: nat, p: nat, off: int)
    requires p > 0 && 0 <= off < size
    ensures off / p < PartCount(size, p) && InPart(size, p, off / p, off)
  {
    var k := off / p;
    DivIs(off, k, p);
    PartBelow(size, p, k);
    EndOfPart(size, p, k);
  }

  lemma InPartIs(size: nat, p: nat, k: nat, off: int)
    requires p > 0 && k < PartCount(size, p) && InPart(size, p, k, off)
    ensures off >= 0 && k == off / p
    ensures off < size || (off == size && OneShort(size, p))
  {
    EndOfPart(size, p, k);
    assert k * p >= 0;
    DivIs(off, k, p);
  }

  lemma AsInt32Fits(x: nat)
    ensures x < INT32_LIMIT ==> AsInt32(x) == x
    ensures x >= INT32_LIMIT ==> AsInt32(x) < x
  {
  }

  lemma InOnePart(size: nat, p: nat, j: nat, k: nat, off: int)
    requires p > 0 && j < PartCount(size, p) && k < PartCount(size, p)
    requires InPart(size, p, j, off) && InPart(size, p, k, off)
    ensures j == k
  {
    InPartIs(size, p, j, off);
    InPartIs(size, p, k, off);
  }

  lemma InSome(size: nat, p: nat, off: int)
    requires p > 0 && 0 <= off < size
    ensures InSomePart(size, p, PartCount(size, p), off)
  {
    Covered(size, p, off);
    var k := off / p;
    assert InPart(size, p, k, off);
  }

  lemma TilesWhenFits(size: nat, p: nat)
    requires p > 0 && !OneShort(size, p)
    ensures Tiles(size, p, PartCount(size, p))
  {
    var n := PartCount(size, p);
    forall off | 0 <= off < size ensures InSomePart(size, p, n, off) { InSome(size, p, off); }
    forall off, j, k | 0 <= j < n && 0 <= k < n && InPart(size, p, j, off) && InPart(size, p, k, off)
      ensures j == k
    {
      InOnePart(size, p, j, k, off);
    }
    forall k, off | 0 <= k < n && InPart(size, p, k, off) ensures 0 <= off < size {
      InPartIs(size, p, k, off);
    }
  }

  lemma TilesOnlyIf(size: nat, p: nat, n: int)
    requires p > 0 && size > 0 && n <= PartCount(size, p) && Tiles(size, p, n)
    ensures n == PartCount(size, p) && !OneShort(size, p)
  {
    LastPart(size, p);
    var last := PartCount(size, p) - 1;
    assert InSomePart(size, p, n, size - 1);
    var k :| 0 <= k < n && InPart(size, p, k, size - 1);
    InPartIs(size, p, k, size - 1);
    EndOfPart(size, p, last);
    assert InPart(size, p, last, End(size, last, p));
  }

  /** For every file length and every part size, the parts 0 .. FilePartitionNum-1 tile the file
      and the server takes every chunk exactly when the last part is not one byte short and
      the number of parts fits the int32 it is returned in. */
  lemma ExactTiling(src: seq<byte>, p: nat)
    requires p > 0 && src != []
    ensures Tiles(|src|, p, FilePartitionNum(|src|, p))
            <==> !OneShort(|src|, p) && PartCount(|src|, p) < INT32_LIMIT
    ensures (forall i :: 0 <= i < PartCount(|src|, p) ==> Accepts(|src|, i, p, |Slice(src, p, i)|))
            <==> !OneShort(|src|, p)
  {
    var size, n := |src|, PartCount(|src|, p);
    AsInt32Fits(n);
    if Tiles(size, p, FilePartitionNum(size, p)) {
      TilesOnlyIf(size, p, FilePartitionNum(size, p));
    }
    if !OneShort(size, p) { TilesWhenFits(size, p); }
    LastPart(size, p);
    forall i | 0 <= i < n
      ensures Accepts(size, i, p, |Slice(src, p, i)|) <==> !(i == n - 1 && OneShort(size, p))
    {
      ChunkAccepted(src, p, i);
    }
    assert Accepts(size, n - 1, p, |Slice(src, p, n - 1)|) <==> !OneShort(size, p);
  }

  /** A file of seven bytes in parts of four: the last part is taken to end one past the file, and its
      chunk of three bytes is refused. */
  lemma SevenByFour(src: seq<byte>)
    requires |src| == 7
    ensures OneShort(7, 4) && End(7, 1, 4) == 7 && |Slice(src, 4, 1)| == 3 && !Accepts(7, 1, 4, |Slice(src, 4, 1)|)
  {
  }
}
