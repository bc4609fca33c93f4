/** How a large download is cut into byte ranges. */
module Chunks {
  datatype ChunkRange = ChunkRange(offset: nat, size: nat)

  function MiB(n: nat): nat { n * 0x10_0000 }

  function ChunkSize(fileSize: nat): nat {
    var target := fileSize / 6;
    if target < MiB(5) then MiB(5) else if target > MiB(20) then MiB(20) else target
  }

  /** The ranges from `offset` on, each as long as possible. */
  function RangesFrom(offset: nat, fileSize: nat, chunk: nat): seq<ChunkRange>
    requires chunk > 0
    decreases fileSize - offset
  {
    if offset >= fileSize then []
    else
      var size := if fileSize - offset < chunk then fileSize - offset else chunk;
      [ChunkRange(offset, size)] + RangesFrom(offset + size, fileSize, chunk)
  }

  function Ranges(fileSize: nat): seq<ChunkRange> {
    RangesFrom(0, fileSize, ChunkSize(fileSize))
  }

  method CalculateChunkRanges(fileSize: nat) returns (chunks: seq<ChunkRange>)
    ensures chunks == Ranges(fileSize)
  {
    var chunkSize := ChunkSize(fileSize);
    chunks := [];
    var offset := 0;
    while offset < fileSize
      invariant offset <= fileSize
      invariant chunks + RangesFrom(offset, fileSize, chunkSize) == Ranges(fileSize)
    {
      var remaining := fileSize - offset;
      var size := if remaining < chunkSize then remaining else chunkSize;
      assert chunks + ([ChunkRange(offset, size)] + RangesFrom(offset + size, fileSize, chunkSize))
          == (chunks + [ChunkRange(offset, size)]) + RangesFrom(offset + size, fileSize, chunkSize);
      chunks := chunks + [ChunkRange(offset, size)];
      offset := offset + size;
    }
  }

  /** The ranges lie end to end from `from` to `to` without a gap or an overlap, none empty or over-long. */
  predicate Tiles(chunks: seq<ChunkRange>, from: nat, to: nat, chunk: nat) {
    && (chunks == [] ==> from == to)
    && (chunks != [] ==> chunks[0].offset == from && chunks[|chunks| - 1].offset + chunks[|chunks| - 1].size == to)
    && (forall i :: 0 <= i < |chunks| ==> 0 < chunks[i].size <= chunk)
    && (forall i, j :: 0 <= i < |chunks| && j == i + 1 < |chunks| ==> chunks[j].offset == chunks[i].offset + chunks[i].size)
  }

  lemma {:induction false} RangesTile(offset: nat, fileSize: nat, chunk: nat)
    requires chunk > 0 && offset <= fileSize
    ensures Tiles(RangesFrom(offset, fileSize, chunk), offset, fileSize, chunk)
    decreases fileSize - offset
  {
    if offset < fileSize {
      var size := if fileSize - offset < chunk then fileSize - offset else chunk;
      RangesTile(offset + size, fileSize, chunk);
    }
  }

  lemma {:induction false} TilesAscend(chunks: seq<ChunkRange>, from: nat, to: nat, chunk: nat, i: nat, j: nat)
    requires Tiles(chunks, from, to, chunk) && i < j < |chunks|
    ensures chunks[i].offset + chunks[i].size <= chunks[j].offset
    decreases j
  {
    if i < j - 1 {
      TilesAscend(chunks, from, to, chunk, i, j - 1);
    }
  }

  lemma {:induction false} TilesWithin(chunks: seq<ChunkRange>, from: nat, to: nat, chunk: nat, i: nat)
    requires Tiles(chunks, from, to, chunk) && i < |chunks|
    ensures from <= chunks[i].offset && chunks[i].offset + chunks[i].size <= to
  {
    if i > 0 {
      TilesAscend(chunks, from, to, chunk, 0, i);
    }
    if i < |chunks| - 1 {
      TilesAscend(chunks, from, to, chunk, i, |chunks| - 1);
    }
  }

  /** The byte `b` belongs to the range, whose last byte is named inclusively in a range request. */
  predicate Holds(c: ChunkRange, b: nat) {
    c.size > 0 && c.offset <= b <= c.offset + c.size - 1
  }

  /** Every byte of the file is asked for exactly once, and nothing beyond it. */
  lemma EveryByteOnce(fileSize: nat, b: nat)
    ensures b < fileSize <==> exists i :: 0 <= i < |Ranges(fileSize)| && Holds(Ranges(fileSize)[i], b)
    ensures forall i, j :: 0 <= i < |Ranges(fileSize)| && 0 <= j < |Ranges(fileSize)| && i != j ==>
              !(Holds(Ranges(fileSize)[i], b) && Holds(Ranges(fileSize)[j], b))
  {
    var chunk := ChunkSize(fileSize);
    var chunks := Ranges(fileSize);
    RangesTile(0, fileSize, chunk);
    hide Ranges, ChunkSize;
    forall i | 0 <= i < |chunks|
      ensures chunks[i].offset + chunks[i].size <= fileSize
    {
      TilesWithin(chunks, 0, fileSize, chunk, i);
    }
    forall i, j | 0 <= i < j < |chunks|
      ensures chunks[i].offset + chunks[i].size <= chunks[j].offset
    {
      TilesAscend(chunks, 0, fileSize, chunk, i, j);
    }
    if b < fileSize {
      var i := Locate(chunks, 0, fileSize, chunk, b, |chunks| - 1);
    }
  }

  lemma {:induction false} Locate(chunks: seq<ChunkRange>, from: nat, to: nat, chunk: nat, b: nat, last: nat) returns (i: nat)
    requires Tiles(chunks, from, to, chunk) && last < |chunks|
    requires from <= b < chunks[last].offset + chunks[last].size
    ensures i <= last && Holds(chunks[i], b)
    decreases last
  {
    if chunks[last].offset <= b {
      i := last;
    } else {
      i := Locate(chunks, from, to, chunk, b, last - 1);
    }
  }

  // How many there are.

  function CeilDiv(a: nat, b: nat): nat
    requires b > 0
  {
    (a + b - 1) / b
  }

  lemma CeilDivStep(a: nat, b: nat)
    requires b > 0
    ensures a > b ==> CeilDiv(a, b) == 1 + CeilDiv(a - b, b)
    ensures 0 < a <= b ==> CeilDiv(a, b) == 1
    ensures a == 0 ==> CeilDiv(a, b) == 0
  {
    if a > b {
      var d := (a - 1) / b;
      Quotient(a - 1, b);
      assert (d + 1) * b == d * b + b && (d + 2) * b == d * b + b + b;
      DivisionIs(a + b - 1, b, d + 1);
      assert CeilDiv(a - b, b) == d;
    } else if a > 0 {
      DivisionIs(a + b - 1, b, 1);
    } else {
      DivisionIs(b - 1, b, 0);
    }
  }

  lemma Quotient(x: nat, b: nat)
    requires b > 0
    ensures x / b * b <= x < x / b * b + b
  {
  }

  lemma DivisionIs(x: nat, b: nat, q: nat)
    requires b > 0 && q * b <= x < (q + 1) * b
    ensures x / b == q
  {
    var d := x / b;
    Quotient(x, b);
    if d < q {
      Monotone(d + 1, q, b);
    }
    if d > q {
      Monotone(q + 1, d, b);
    }
  }

  lemma Monotone(x: nat, y: nat, b: nat)
    requires x <= y
    ensures x * b <= y * b
  {
  }

  lemma {:induction false} CountFrom(offset: nat, fileSize: nat, chunk: nat)
    requires chunk > 0 && offset <= fileSize
    ensures |RangesFrom(offset, fileSize, chunk)| == CeilDiv(fileSize - offset, chunk)
    decreases fileSize - offset
  {
    CeilDivStep(fileSize - offset, chunk);
    hide CeilDiv;
    if offset < fileSize {
      var size := if fileSize - offset < chunk then fileSize - offset else chunk;
      CountFrom(offset + size, fileSize, chunk);
      CeilDivStep(0, chunk);
    }
  }

  lemma {:induction false} CountAtMost(offset: nat, fileSize: nat, chunk: nat, k: nat)
    requires chunk > 0 && offset <= fileSize && fileSize - offset <= k * chunk
    ensures |RangesFrom(offset, fileSize, chunk)| <= k
    decreases k
  {
    if offset < fileSize {
      var size := if fileSize - offset < chunk then fileSize - offset else chunk;
      assert (k - 1) * chunk == k * chunk - chunk;
      CountAtMost(offset + size, fileSize, chunk, k - 1);
    }
  }

  /** At most seven ranges up to 120 MiB; above that one for every 20 MiB begun. */
  lemma HowManyChunks(fileSize: nat)
    ensures fileSize <= MiB(120) ==> |Ranges(fileSize)| <= 7
    ensures fileSize > MiB(120) ==> |Ranges(fileSize)| == CeilDiv(fileSize, MiB(20))
  {
    var chunk := ChunkSize(fileSize);
    if fileSize <= MiB(120) {
      assert fileSize <= 7 * chunk;
      CountAtMost(0, fileSize, chunk, 7);
    } else {
      CountFrom(0, fileSize, chunk);
    }
  }
}
