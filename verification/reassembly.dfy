/** Putting a chunked download together: chunks arrive in any order and are
    hashed and written as soon as they are next in line. */
module Reassembly {
  import opened Options
  import opened Sets
  import opened Chunks
  import opened Blobs

  datatype Arrival = Arrival(data: Bytes, offset: nat)

  function ExpectedChunks(chunks: seq<ChunkRange>): map<nat, nat> {
    if chunks == [] then map[]
    else ExpectedChunks(chunks[..|chunks| - 1])[chunks[|chunks| - 1].offset := chunks[|chunks| - 1].size]
  }

  ghost predicate Plan(chunks: seq<ChunkRange>, fileSize: nat) {
    exists chunk :: Tiles(chunks, 0, fileSize, chunk)
  }

  lemma PlanAscends(chunks: seq<ChunkRange>, fileSize: nat, i: nat, j: nat)
    requires Plan(chunks, fileSize) && i < j < |chunks|
    ensures chunks[i].offset + chunks[i].size <= chunks[j].offset && chunks[i].size > 0
  {
    var chunk :| Tiles(chunks, 0, fileSize, chunk);
    TilesAscend(chunks, 0, fileSize, chunk, i, j);
  }

  /** Where chunk `k` begins; the end of the file for the one after the last. */
  function Start(chunks: seq<ChunkRange>, fileSize: nat, k: nat): nat {
    if k < |chunks| then chunks[k].offset else fileSize
  }

  lemma StartNext(chunks: seq<ChunkRange>, fileSize: nat, k: nat)
    requires Plan(chunks, fileSize) && k < |chunks|
    ensures Start(chunks, fileSize, k + 1) == chunks[k].offset + chunks[k].size
    ensures Start(chunks, fileSize, 0) == 0 && chunks[k].offset < fileSize
  {
    var chunk :| Tiles(chunks, 0, fileSize, chunk);
    TilesWithin(chunks, 0, fileSize, chunk, k);
  }

  lemma {:induction false} ExpectedMeans(chunks: seq<ChunkRange>, n: nat, fileSize: nat)
    requires Plan(chunks, fileSize) && n <= |chunks|
    ensures var e := ExpectedChunks(chunks[..n]);
            && (forall o :: o in e <==> exists c :: 0 <= c < n && chunks[c].offset == o)
            && (forall c :: 0 <= c < n ==> e[chunks[c].offset] == chunks[c].size)
    decreases n
  {
    hide Plan, Tiles;
    if n > 0 {
      ExpectedMeans(chunks, n - 1, fileSize);
      var e, last := ExpectedChunks(chunks[..n - 1]), chunks[n - 1];
      assert ExpectedChunks(chunks[..n]) == e[last.offset := last.size] by {
        assert chunks[..n][..n - 1] == chunks[..n - 1];
      }
      hide ExpectedChunks;
      forall c | 0 <= c < n - 1
        ensures chunks[c].offset != last.offset
      {
        PlanAscends(chunks, fileSize, c, n - 1);
      }
      OneMore(chunks, n - 1, e);
    }
  }

  lemma OneMore(chunks: seq<ChunkRange>, n: nat, e: map<nat, nat>)
    requires n < |chunks|
    requires forall o :: o in e <==> exists c :: 0 <= c < n && chunks[c].offset == o
    requires forall c :: 0 <= c < n ==> chunks[c].offset != chunks[n].offset && e[chunks[c].offset] == chunks[c].size
    ensures var more := e[chunks[n].offset := chunks[n].size];
            && (forall o :: o in more <==> exists c :: 0 <= c < n + 1 && chunks[c].offset == o)
            && (forall c :: 0 <= c < n + 1 ==> more[chunks[c].offset] == chunks[c].size)
  {
  }

  predicate Fitting(expected: map<nat, nat>, a: Arrival) {
    a.offset in expected && |a.data| == expected[a.offset]
  }

  predicate Distinct(arrivals: seq<Arrival>) {
    forall i, j :: 0 <= i < j < |arrivals| ==> arrivals[i].offset != arrivals[j].offset
  }

  /** Every chunk arrives exactly once, with its size. */
  predicate Complete(chunks: seq<ChunkRange>, arrivals: seq<Arrival>) {
    && |arrivals| == |chunks| && Distinct(arrivals)
    && forall j :: 0 <= j < |arrivals| ==> Fitting(ExpectedChunks(chunks), arrivals[j])
  }

  function Flatten(arrivals: seq<Arrival>, taken: seq<nat>): Bytes
    requires forall c :: 0 <= c < |taken| ==> taken[c] < |arrivals|
  {
    if taken == [] then [] else Flatten(arrivals, taken[..|taken| - 1]) + arrivals[taken[|taken| - 1]].data
  }

  /** `taken` names, chunk by chunk, the arrival that was used for it. */
  ghost predicate Order(chunks: seq<ChunkRange>, arrivals: seq<Arrival>, taken: seq<nat>) {
    && |taken| <= |chunks|
    && forall c :: 0 <= c < |taken| ==> taken[c] < |arrivals| && arrivals[taken[c]].offset == chunks[c].offset
  }

  /** The state of the receive loop after `i` arrivals. */
  ghost predicate Receiving(chunks: seq<ChunkRange>, fileSize: nat, arrivals: seq<Arrival>, i: nat,
                            received: map<nat, Bytes>, taken: seq<nat>, next: nat, hashed: Bytes)
  {
    && i <= |arrivals|
    && Order(chunks, arrivals[..i], taken) && next == Start(chunks, fileSize, |taken|)
    && hashed == Flatten(arrivals[..i], taken) && |hashed| == next
    && (forall j :: 0 <= j < i ==> Fitting(ExpectedChunks(chunks), arrivals[j]))
    && (forall o :: o in received ==> exists j :: 0 <= j < i && arrivals[j] == Arrival(received[o], o))
    && (forall j :: 0 <= j < i ==> arrivals[j].offset in received || arrivals[j].offset < next)
    && (Distinct(arrivals[..i]) ==> forall o :: o in received ==> o >= next)
  }

  lemma ReceivingStart(chunks: seq<ChunkRange>, fileSize: nat, arrivals: seq<Arrival>)
    requires Plan(chunks, fileSize)
    ensures Receiving(chunks, fileSize, arrivals, 0, map[], [], 0, [])
  {
  }

  lemma {:induction false} FlattenMore(arrivals: seq<Arrival>, i: nat, taken: seq<nat>)
    requires i < |arrivals| && forall c :: 0 <= c < |taken| ==> taken[c] < i
    ensures Flatten(arrivals[..i + 1], taken) == Flatten(arrivals[..i], taken)
  {
    if taken != [] {
      FlattenMore(arrivals, i, taken[..|taken| - 1]);
      assert arrivals[..i + 1][taken[|taken| - 1]] == arrivals[..i][taken[|taken| - 1]];
    }
  }

  /** A fitting arrival is put among those received. */
  lemma Received(chunks: seq<ChunkRange>, fileSize: nat, arrivals: seq<Arrival>, i: nat,
                 received: map<nat, Bytes>, taken: seq<nat>, next: nat, hashed: Bytes)
    requires Plan(chunks, fileSize) && i < |arrivals|
    requires Receiving(chunks, fileSize, arrivals, i, received, taken, next, hashed)
    requires Fitting(ExpectedChunks(chunks), arrivals[i])
    ensures Receiving(chunks, fileSize, arrivals, i + 1, received[arrivals[i].offset := arrivals[i].data], taken, next, hashed)
  {
    hide ExpectedChunks, Plan, Fitting, Start;
    var before, now, a := arrivals[..i], arrivals[..i + 1], arrivals[i];
    FlattenMore(arrivals, i, taken);
    hide Flatten;
    assert forall j :: 0 <= j < i ==> now[j] == before[j];
    if a.offset < next {
      NotTaken(chunks, fileSize, arrivals, i, taken, next);
    }
    if Distinct(now) {
      assert Distinct(before);
    }
  }

  /** What is in front of `next` has arrived before. */
  lemma NotTaken(chunks: seq<ChunkRange>, fileSize: nat, arrivals: seq<Arrival>, i: nat, taken: seq<nat>, next: nat)
    requires Plan(chunks, fileSize) && i < |arrivals| && Fitting(ExpectedChunks(chunks), arrivals[i])
    requires Order(chunks, arrivals[..i], taken) && next == Start(chunks, fileSize, |taken|) && arrivals[i].offset < next
    ensures !Distinct(arrivals[..i + 1])
  {
    var o, now := arrivals[i].offset, arrivals[..i + 1];
    ExpectedMeans(chunks, |chunks|, fileSize);
    assert chunks[..|chunks|] == chunks;
    var c :| 0 <= c < |chunks| && chunks[c].offset == o;
    if c >= |taken| {
      if c > |taken| {
        PlanAscends(chunks, fileSize, |taken|, c);
      }
    } else {
      var j := taken[c];
      assert now[j].offset == arrivals[..i][j].offset == o == now[i].offset;
    }
  }

  lemma ChunkOf(chunks: seq<ChunkRange>, fileSize: nat, a: Arrival) returns (c: nat)
    requires Plan(chunks, fileSize) && Fitting(ExpectedChunks(chunks), a)
    ensures c < |chunks| && chunks[c].offset == a.offset && chunks[c].size == |a.data| && |a.data| > 0
  {
    ExpectedMeans(chunks, |chunks|, fileSize);
    assert chunks[..|chunks|] == chunks;
    c :| 0 <= c < |chunks| && chunks[c].offset == a.offset;
    var chunk :| Tiles(chunks, 0, fileSize, chunk);
  }

  /** Nothing that fits begins inside another chunk. */
  lemma BeyondChunk(chunks: seq<ChunkRange>, fileSize: nat, a: Arrival, b: Arrival)
    requires Plan(chunks, fileSize) && Fitting(ExpectedChunks(chunks), a) && Fitting(ExpectedChunks(chunks), b)
    requires b.offset > a.offset
    ensures b.offset >= a.offset + |a.data|
  {
    var c := ChunkOf(chunks, fileSize, a);
    var d := ChunkOf(chunks, fileSize, b);
    if c < d {
      PlanAscends(chunks, fileSize, c, d);
    } else if d < c {
      PlanAscends(chunks, fileSize, d, c);
    }
  }

  /** The chunk next in line is hashed and written. */
  lemma Flushed(chunks: seq<ChunkRange>, fileSize: nat, arrivals: seq<Arrival>, i: nat,
                received: map<nat, Bytes>, taken: seq<nat>, next: nat, hashed: Bytes) returns (j: nat)
    requires Plan(chunks, fileSize)
    requires Receiving(chunks, fileSize, arrivals, i, received, taken, next, hashed) && next in received
    ensures j < i && j < |arrivals| && arrivals[j].data == received[next]
    ensures Receiving(chunks, fileSize, arrivals, i, received - {next}, taken + [j], next + |received[next]|, hashed + received[next])
  {
    hide ExpectedChunks, Plan, Fitting, Start, Flatten;
    j :| 0 <= j < i && arrivals[j] == Arrival(received[next], next);
    var a := arrivals[j];
    var c := ChunkOf(chunks, fileSize, a);
    ChunkNextInLine(chunks, fileSize, |taken|, c);
    StartNext(chunks, fileSize, c);
    forall o | o in received - {next} && o >= next
      ensures o >= next + |received[next]|
    {
      var b :| 0 <= b < i && arrivals[b] == Arrival(received[o], o);
      BeyondChunk(chunks, fileSize, a, arrivals[b]);
    }
    FlushedOrder(chunks, arrivals[..i], taken, j);
    hide Order, Distinct;
  }

  lemma FlushedOrder(chunks: seq<ChunkRange>, arrivals: seq<Arrival>, taken: seq<nat>, j: nat)
    requires Order(chunks, arrivals, taken) && |taken| < |chunks| && j < |arrivals|
    requires arrivals[j].offset == chunks[|taken|].offset
    ensures Order(chunks, arrivals, taken + [j])
    ensures Flatten(arrivals, taken + [j]) == Flatten(arrivals, taken) + arrivals[j].data
  {
  }

  lemma ChunkNextInLine(chunks: seq<ChunkRange>, fileSize: nat, k: nat, c: nat)
    requires Plan(chunks, fileSize) && c < |chunks| && k <= |chunks| && chunks[c].offset == Start(chunks, fileSize, k)
    ensures c == k
  {
    StartNext(chunks, fileSize, c);
    if k < |chunks| {
      if k < c {
        PlanAscends(chunks, fileSize, k, c);
      }
      if c < k {
        PlanAscends(chunks, fileSize, c, k);
      }
    }
  }

  // Nothing is in line any more.

  /** When all chunks have arrived exactly once and none is next in line, all have been written. */
  lemma CompleteIsWritten(chunks: seq<ChunkRange>, fileSize: nat, arrivals: seq<Arrival>,
                          received: map<nat, Bytes>, taken: seq<nat>, next: nat, hashed: Bytes)
    requires Plan(chunks, fileSize) && Complete(chunks, arrivals)
    requires Receiving(chunks, fileSize, arrivals, |arrivals|, received, taken, next, hashed)
    requires received != map[] ==> exists o :: o in received && o != next && forall x :: x in received ==> o <= x
    ensures |taken| == |chunks| && next == fileSize
  {
    assert arrivals[..|arrivals|] == arrivals;
    if |taken| < |chunks| {
      var j := ArrivalOf(chunks, fileSize, arrivals, |taken|);
    }
  }

  /** A complete set of arrivals has one for every chunk. */
  lemma ArrivalOf(chunks: seq<ChunkRange>, fileSize: nat, arrivals: seq<Arrival>, k: nat) returns (j: nat)
    requires Plan(chunks, fileSize) && Complete(chunks, arrivals) && k < |chunks|
    ensures j < |arrivals| && arrivals[j].offset == chunks[k].offset
  {
    var came := seq(|arrivals|, i requires 0 <= i < |arrivals| => arrivals[i].offset);
    var planned := seq(|chunks|, i requires 0 <= i < |chunks| => chunks[i].offset);
    forall a, b | 0 <= a < b < |planned|
      ensures planned[a] != planned[b]
    {
      PlanAscends(chunks, fileSize, a, b);
    }
    DistinctCount(came);
    DistinctCount(planned);
    forall x | x in came
      ensures x in planned
    {
      var i :| 0 <= i < |came| && came[i] == x;
      var c := ChunkOf(chunks, fileSize, arrivals[i]);
      assert planned[c] == x;
    }
    Subset(Members(came), Members(planned));
    assert forall a, b :: 0 <= a < b < |came| ==> came[a] != came[b];
    assert planned[k] in Members(planned);
    j :| 0 <= j < |came| && came[j] == planned[k];
  }

  /** And the other way round: as many arrivals as chunks, all chunks written, means each arrived once. */
  lemma WrittenIsComplete(chunks: seq<ChunkRange>, fileSize: nat, arrivals: seq<Arrival>, received: map<nat, Bytes>,
                          taken: seq<nat>, hashed: Bytes)
    requires Plan(chunks, fileSize) && |arrivals| == |chunks|
    requires Receiving(chunks, fileSize, arrivals, |arrivals|, received, taken, fileSize, hashed)
    ensures |taken| == |chunks| && Complete(chunks, arrivals)
  {
    assert arrivals[..|arrivals|] == arrivals;
    if |taken| < |chunks| {
      StartNext(chunks, fileSize, |taken|);
    }
    var came := seq(|arrivals|, i requires 0 <= i < |arrivals| => arrivals[i].offset);
    var planned := seq(|chunks|, i requires 0 <= i < |chunks| => chunks[i].offset);
    forall a, b | 0 <= a < b < |planned|
      ensures planned[a] != planned[b]
    {
      PlanAscends(chunks, fileSize, a, b);
    }
    DistinctCount(came);
    DistinctCount(planned);
    forall x | x in planned
      ensures x in came
    {
      var c :| 0 <= c < |planned| && planned[c] == x;
      assert came[taken[c]] == x;
    }
    Subset(Members(planned), Members(came));
    forall i, j | 0 <= i < j < |arrivals|
      ensures arrivals[i].offset != arrivals[j].offset
    {
      assert came[i] != came[j];
    }
  }

  /** What has been put together is the file, if every chunk brought the file's bytes of its range. */
  lemma {:induction false} FlattenIsFile(chunks: seq<ChunkRange>, fileSize: nat, arrivals: seq<Arrival>, taken: seq<nat>, file: Bytes)
    requires Plan(chunks, fileSize) && |file| == fileSize && Order(chunks, arrivals, taken)
    requires forall j :: 0 <= j < |arrivals| ==> Fitting(ExpectedChunks(chunks), arrivals[j])
    requires forall j :: 0 <= j < |arrivals| && arrivals[j].offset + |arrivals[j].data| <= fileSize ==>
               arrivals[j].data == file[arrivals[j].offset..arrivals[j].offset + |arrivals[j].data|]
    ensures Start(chunks, fileSize, |taken|) <= fileSize && Flatten(arrivals, taken) == file[..Start(chunks, fileSize, |taken|)]
    decreases |taken|
  {
    if taken == [] {
      if chunks != [] {
        StartNext(chunks, fileSize, 0);
      } else {
        var chunk :| Tiles(chunks, 0, fileSize, chunk);
      }
    } else {
      var k := |taken| - 1;
      var a := arrivals[taken[k]];
      FlattenIsFile(chunks, fileSize, arrivals, taken[..k], file);
      var c := ChunkOf(chunks, fileSize, a);
      ChunkNextInLine(chunks, fileSize, k, c);
      StartNext(chunks, fileSize, k);
      var chunk :| Tiles(chunks, 0, fileSize, chunk);
      TilesWithin(chunks, 0, fileSize, chunk, k);
      hide ExpectedChunks, Start, Tiles;
      assert file[..a.offset] + file[a.offset..a.offset + |a.data|] == file[..a.offset + |a.data|];
    }
  }

  function Least(s: set<nat>): (r: nat)
    requires s != {}
    ensures r in s && forall x :: x in s ==> r <= x
  {
    LeastExists(s);
    var x :| x in s && forall y :: y in s ==> x <= y;
    x
  }

  lemma {:induction false} LeastExists(s: set<nat>)
    requires s != {}
    ensures exists x :: x in s && forall y :: y in s ==> x <= y
    decreases |s|
  {
    var x :| x in s;
    var below := set y | y in s && y < x;
    if below == {} {
      assert forall y :: y in s ==> y !in below;
      assert x in s && forall y :: y in s ==> x <= y;
    } else {
      assert x !in below && below <= s;
      Subset(below, s);
      LeastExists(below);
      var z :| z in below && forall y :: y in below ==> z <= y;
      forall y | y in s
        ensures z <= y
      {
        assert y < x ==> y in below;
      }
      assert z in s;
    }
  }

  /** At most one chunk is hashed and not written. */
  ghost predicate HashedAhead(written: Bytes, hashed: Bytes, arrivals: seq<Arrival>) {
    hashed == written || exists a :: a in arrivals && hashed == written + a.data
  }

  /** The receive loop. What is next in line is hashed before it is written, so
      a failing write leaves one chunk that is hashed only. */
  method ReceiveChunks(writer: BlobWriter, chunks: seq<ChunkRange>, fileSize: nat, arrivals: seq<Arrival>, f: DiskFaults)
    returns (ok: bool, chunksWritten: nat, next: nat, hashed: Bytes, ghost taken: seq<nat>, ghost left: map<nat, Bytes>)
    requires Plan(chunks, fileSize)
    requires writer.tmpPath in writer.cache.tmp && writer.cache.tmp[writer.tmpPath] == []
    modifies writer.cache`tmp
    ensures writer.tmpPath in writer.cache.tmp && writer.cache.tmp == old(writer.cache.tmp)[writer.tmpPath := writer.cache.tmp[writer.tmpPath]]
    ensures ok ==> writer.cache.tmp[writer.tmpPath] == hashed
    ensures !ok ==> HashedAhead(writer.cache.tmp[writer.tmpPath], hashed, arrivals)
    ensures ok ==> chunksWritten == |arrivals| && Receiving(chunks, fileSize, arrivals, |arrivals|, left, taken, next, hashed)
    ensures ok && left != map[] ==> exists o :: o in left && o != next && forall x :: x in left ==> o <= x
    ensures f.write == None && (forall j :: 0 <= j < |arrivals| ==> Fitting(ExpectedChunks(chunks), arrivals[j])) ==> ok
    ensures ok ==> forall j :: 0 <= j < |arrivals| ==> Fitting(ExpectedChunks(chunks), arrivals[j])
  {
    hide Receiving, Plan, ExpectedChunks, Fitting, Flatten, Order;
    var expected := ExpectedChunks(chunks);
    ok, chunksWritten, next, hashed, taken, left := false, 0, 0, [], [], map[];
    var received: map<nat, Bytes> := map[];
    var writes := 0;
    ReceivingStart(chunks, fileSize, arrivals);
    var i := 0;
    while i < |arrivals|
      invariant i <= |arrivals| && chunksWritten == i
      invariant Receiving(chunks, fileSize, arrivals, i, received, taken, next, hashed)
      invariant received != map[] ==> exists o :: o in received && o != next && forall x :: x in received ==> o <= x
      invariant writer.cache.tmp == old(writer.cache.tmp)[writer.tmpPath := hashed]
      invariant forall j :: 0 <= j < i ==> Fitting(expected, arrivals[j])
    {
      var a := arrivals[i];
      FittingMeans(expected, a);
      if a.offset !in expected || |a.data| != expected[a.offset] {
        return;
      }
      Received(chunks, fileSize, arrivals, i, received, taken, next, hashed);
      received := received[a.offset := a.data];
      chunksWritten := chunksWritten + 1;
      i := i + 1;
      while received != map[]
        invariant Receiving(chunks, fileSize, arrivals, i, received, taken, next, hashed)
        invariant writer.cache.tmp == old(writer.cache.tmp)[writer.tmpPath := hashed]
        decreases |received|
      {
        var first := Least(received.Keys);
        if first != next {
          break;
        }
        ghost var j := Flushed(chunks, fileSize, arrivals, i, received, taken, next, hashed);
        var data := received[first];
        Smaller(received, first);
        received := received - {first};
        ghost var before := hashed;
        hashed := hashed + data;
        var fails := f.write == Some(writes);
        var written := writer.WriteAll(data, fails);
        if !written {
          assert writer.cache.tmp[writer.tmpPath] == before && arrivals[j] in arrivals;
          return;
        }
        taken := taken + [j];
        writes := writes + 1;
        next := next + |data|;
      }
    }
    ok := true;
    left := received;
  }

  lemma FittingMeans(expected: map<nat, nat>, a: Arrival)
    ensures Fitting(expected, a) <==> a.offset in expected && |a.data| == expected[a.offset]
  {
  }

  lemma Smaller(m: map<nat, Bytes>, k: nat)
    requires k in m
    ensures |m - {k}| < |m|
  {
  }

  /** What a finished receive loop has gathered, when the counts agree. */
  ghost predicate Gathered(chunks: seq<ChunkRange>, arrivals: seq<Arrival>, taken: seq<nat>, hashed: Bytes) {
    Complete(chunks, arrivals) && |taken| == |chunks| && Order(chunks, arrivals, taken) && hashed == Flatten(arrivals, taken)
  }

  lemma GatheredExactly(chunks: seq<ChunkRange>, fileSize: nat, arrivals: seq<Arrival>,
                        left: map<nat, Bytes>, taken: seq<nat>, next: nat, hashed: Bytes)
    requires Plan(chunks, fileSize) && Receiving(chunks, fileSize, arrivals, |arrivals|, left, taken, next, hashed)
    requires left != map[] ==> exists o :: o in left && o != next && forall x :: x in left ==> o <= x
    ensures |arrivals| == |chunks| && next == fileSize <==> Complete(chunks, arrivals)
    ensures Complete(chunks, arrivals) ==> Gathered(chunks, arrivals, taken, hashed)
  {
    if |arrivals| == |chunks| && next == fileSize {
      WrittenIsComplete(chunks, fileSize, arrivals, left, taken, hashed);
    }
    if Complete(chunks, arrivals) {
      CompleteIsWritten(chunks, fileSize, arrivals, left, taken, next, hashed);
    }
    assert arrivals[..|arrivals|] == arrivals;
    hide Complete, Flatten, Plan;
  }

  /** Gathering fixes the bytes: whatever the order of arrival, they are the file
      if every chunk brought the file's bytes. */
  lemma GatheredIsFile(chunks: seq<ChunkRange>, fileSize: nat, arrivals: seq<Arrival>, taken: seq<nat>, hashed: Bytes, file: Bytes)
    requires Plan(chunks, fileSize) && |file| == fileSize && Gathered(chunks, arrivals, taken, hashed)
    requires forall j :: 0 <= j < |arrivals| && arrivals[j].offset + |arrivals[j].data| <= fileSize ==>
               arrivals[j].data == file[arrivals[j].offset..arrivals[j].offset + |arrivals[j].data|]
    ensures hashed == file
  {
    FlattenIsFile(chunks, fileSize, arrivals, taken, file);
    assert file[..fileSize] == file;
  }

  /** Gathering does not depend on the order in which the chunks came. */
  lemma {:induction false} GatheredOnce(chunks: seq<ChunkRange>, arrivals: seq<Arrival>, again: seq<Arrival>, taken: seq<nat>, more: seq<nat>)
    requires Order(chunks, arrivals, taken) && Order(chunks, again, more) && |taken| == |more|
    requires Distinct(arrivals) && forall a :: a in again ==> a in arrivals
    ensures Flatten(arrivals, taken) == Flatten(again, more)
  {
    if taken != [] {
      var k := |taken| - 1;
      GatheredOnce(chunks, arrivals, again, taken[..k], more[..k]);
      var a := again[more[k]];
      assert a in again;
      var j :| 0 <= j < |arrivals| && arrivals[j] == a;
      assert arrivals[taken[k]].offset == arrivals[j].offset;
    }
  }

  // The whole body at once.

  /** A response body: the pieces that arrive, and whether it ends as it should. */
  datatype Body = NoResponse | Stream(pieces: seq<Bytes>, complete: bool)

  function Joined(pieces: seq<Bytes>): Bytes {
    if pieces == [] then [] else Joined(pieces[..|pieces| - 1]) + pieces[|pieces| - 1]
  }

  /** Hashes and writes a body as it comes. */
  method DownloadResponse(cache: BlobCache, sha: Sha, tmpPath: string, body: Body, hash: Bytes -> Sha, f: DiskFaults)
    returns (r: Result<()>)
    requires body.Stream?
    modifies cache
    ensures cache.tmp == old(cache.tmp) - {tmpPath}
    ensures AddsOnly(old(cache.blobs), cache.blobs, sha, Joined(body.pieces), f.rival)
    ensures r.Err? ==> cache.blobs == old(cache.blobs)
    ensures r.Ok? ==> body.complete && hash(Joined(body.pieces)) == sha && sha in cache.blobs
    ensures body.complete && NoFaults(f) ==>
              if hash(Joined(body.pieces)) == sha then r.Ok? else r == Err(ChecksumMismatch(sha, hash(Joined(body.pieces))))
  {
    var writer := new BlobWriter(cache, sha, tmpPath);
    var pieces, hashed, i := body.pieces, [], 0;
    assert pieces[..0] == [];
    while i < |pieces|
      invariant i <= |pieces| && hashed == Joined(pieces[..i])
      invariant cache.tmp == old(cache.tmp)[tmpPath := hashed] && cache.blobs == old(cache.blobs) && !writer.committed
    {
      assert pieces[..i + 1][..i] == pieces[..i];
      var fails := f.write == Some(i);
      var before := hashed;
      hashed := hashed + pieces[i];
      var written := writer.WriteAll(pieces[i], fails);
      if !written {
        writer.Drop();
        return Err(NetworkFailure);
      }
      i := i + 1;
    }
    assert pieces[..|pieces|] == pieces;
    if !body.complete {
      writer.Drop();
      return Err(NetworkFailure);
    }
    r := FinishDownload(writer, hashed, hash, f);
  }

  /** There is something to write. */
  predicate Begins(ranged: Option<bool>, body: Body) {
    ranged == Some(true) || (ranged == Some(false) && body.Stream?)
  }

  predicate NoFaults(f: DiskFaults) {
    f.write == None && !f.flush && !f.commitFlush && !f.rename
  }

  /** A rival has checked what it puts in place. */
  ghost predicate HonestRival(f: DiskFaults, sha: Sha, hash: Bytes -> Sha) {
    f.rival.Some? ==> hash(f.rival.value) == sha
  }

  /** A chunked download from the first byte to the cache; without range
      support the body is fetched whole. */
  method DownloadWithChunks(cache: BlobCache, sha: Sha, tmpPath: string, fileSize: nat, ranged: Option<bool>, body: Body,
                            arrivals: seq<Arrival>, tasksOk: bool, hash: Bytes -> Sha, f: DiskFaults)
    returns (r: Result<()>, ghost hashed: Bytes, ghost taken: seq<nat>)
    modifies cache
    ensures cache.tmp == if Begins(ranged, body) then old(cache.tmp) - {tmpPath} else old(cache.tmp)
    ensures r.Ok? ==> hash(hashed) == sha && sha in cache.blobs
                      && match ranged
                         case None => false
                         case Some(true) => Gathered(Ranges(fileSize), arrivals, taken, hashed)
                         case Some(false) => body.Stream? && body.complete && hashed == Joined(body.pieces)
    ensures AddsOnly(old(cache.blobs), cache.blobs, sha, hashed, f.rival)
    ensures r.Err? ==> cache.blobs == old(cache.blobs)
    ensures old(cache.Genuine(hash)) && HonestRival(f, sha, hash) ==> cache.Genuine(hash)
    ensures ranged == Some(true) && Complete(Ranges(fileSize), arrivals) && tasksOk && NoFaults(f) ==>
              && Gathered(Ranges(fileSize), arrivals, taken, hashed)
              && if hash(hashed) == sha then r.Ok? else r == Err(ChecksumMismatch(sha, hash(hashed)))
    ensures ranged == Some(false) && body.Stream? && body.complete && NoFaults(f) ==>
              && hashed == Joined(body.pieces)
              && if hash(hashed) == sha then r.Ok? else r == Err(ChecksumMismatch(sha, hash(hashed)))
  {
    hide Ranges, Complete, Flatten, Order, Receiving, ExpectedChunks, Fitting, Gathered, Joined;
    hashed, taken := [], [];
    if ranged.None? {
      return Err(NetworkFailure), hashed, taken;
    }
    if !ranged.value {
      if body.NoResponse? {
        return Err(NetworkFailure), hashed, taken;
      }
      hashed := Joined(body.pieces);
      r := DownloadResponse(cache, sha, tmpPath, body, hash, f);
      return;
    }
    var chunks := CalculateChunkRanges(fileSize);
    PlanOf(fileSize);
    var writer := new BlobWriter(cache, sha, tmpPath);
    var ok, count, next, bytes, order, left := ReceiveChunks(writer, chunks, fileSize, arrivals, f);
    hashed, taken := bytes, order;
    CompleteFits(chunks, arrivals);
    if ok {
      GatheredExactly(chunks, fileSize, arrivals, left, taken, next, hashed);
    }
    if !ok || !tasksOk || count != |chunks| || next != fileSize {
      writer.Drop();
      return Err(NetworkFailure), hashed, taken;
    }
    r := FinishDownload(writer, bytes, hash, f);
  }

  lemma PlanOf(fileSize: nat)
    ensures Plan(Ranges(fileSize), fileSize)
  {
    RangesTile(0, fileSize, ChunkSize(fileSize));
  }

  lemma CompleteFits(chunks: seq<ChunkRange>, arrivals: seq<Arrival>)
    ensures Complete(chunks, arrivals) ==> forall j :: 0 <= j < |arrivals| ==> Fitting(ExpectedChunks(chunks), arrivals[j])
  {
  }
}
