/** The blob cache: a temporary file per download, moved into place once its
    checksum has been verified. */
module Blobs {
  import opened Options

  type Bytes = seq<bv8>
  type Sha = string

  datatype Failure = ChecksumMismatch(expected: Sha, actual: Sha) | NetworkFailure

  datatype Result<+T> = Ok(value: T) | Err(error: Failure)

  /** What goes wrong on disk: the number of the write that fails, a flush
      before the commit or in it, the rename; and the blob another writer puts
      in place between this one's look and its rename. */
  datatype DiskFaults = DiskFaults(write: Option<nat>, flush: bool, commitFlush: bool, rename: bool, rival: Option<Bytes>)

  /** The cache directory: finished blobs by checksum, unfinished ones by file name. */
  class BlobCache {
    var blobs: map<Sha, Bytes>
    var tmp: map<string, Bytes>

    constructor ()
      ensures blobs == map[] && tmp == map[]
    {
      blobs, tmp := map[], map[];
    }

    /** Every blob has the checksum it is stored under. */
    ghost predicate Genuine(hash: Bytes -> Sha)
      reads this
    {
      forall sha :: sha in blobs ==> hash(blobs[sha]) == sha
    }
  }

  class BlobWriter {
    const cache: BlobCache
    const tmpPath: string
    const sha: Sha
    var committed: bool

    /** Creates the temporary file, emptying a leftover of the same name. */
    constructor (cache: BlobCache, sha: Sha, tmpPath: string)
      modifies cache`tmp
      ensures this.cache == cache && this.sha == sha && this.tmpPath == tmpPath && !committed
      ensures cache.tmp == old(cache.tmp)[tmpPath := []]
    {
      this.cache := cache;
      this.sha := sha;
      this.tmpPath := tmpPath;
      committed := false;
      new;
      cache.tmp := cache.tmp[tmpPath := []];
    }

    method WriteAll(data: Bytes, fails: bool) returns (ok: bool)
      modifies cache`tmp
      ensures ok == !fails
      ensures ok && tmpPath in old(cache.tmp) ==> cache.tmp == old(cache.tmp)[tmpPath := old(cache.tmp)[tmpPath] + data]
      ensures !ok || tmpPath !in old(cache.tmp) ==> cache.tmp == old(cache.tmp)
    {
      ok := !fails;
      if ok && tmpPath in cache.tmp {
        cache.tmp := cache.tmp[tmpPath := cache.tmp[tmpPath] + data];
      }
    }

    /** Moves the file into place; a blob already there is left alone, and one
        that appears meanwhile stands in for a rename that fails. */
    method Commit(f: DiskFaults) returns (r: Result<()>)
      modifies this`committed, cache`tmp, cache`blobs
      ensures r.Ok? <==> !f.commitFlush && (sha in old(cache.blobs) || f.rival.Some? || (!f.rename && tmpPath in old(cache.tmp)))
      ensures f.commitFlush || sha in old(cache.blobs) ==> cache.blobs == old(cache.blobs)
      ensures !f.commitFlush && sha !in old(cache.blobs) ==>
                cache.blobs == if !f.rename && tmpPath in old(cache.tmp) then old(cache.blobs)[sha := old(cache.tmp)[tmpPath]]
                               else if f.rival.Some? then old(cache.blobs)[sha := f.rival.value]
                               else old(cache.blobs)
      ensures cache.tmp == if r.Ok? then old(cache.tmp) - {tmpPath} else old(cache.tmp)
      ensures committed == (r.Ok? || old(committed))
    {
      if f.commitFlush {
        return Err(NetworkFailure);
      }
      if sha in cache.blobs {
        cache.tmp := cache.tmp - {tmpPath};
        committed := true;
        return Ok(());
      }
      if f.rival.Some? {
        cache.blobs := cache.blobs[sha := f.rival.value];
      }
      if !f.rename && tmpPath in cache.tmp {
        cache.blobs := cache.blobs[sha := cache.tmp[tmpPath]];
        cache.tmp := cache.tmp - {tmpPath};
      } else if sha in cache.blobs {
        cache.tmp := cache.tmp - {tmpPath};
      } else {
        return Err(NetworkFailure);
      }
      committed := true;
      return Ok(());
    }

    /** What happens when the writer goes out of scope. */
    method Drop()
      modifies cache`tmp
      ensures cache.tmp == if committed then old(cache.tmp) else old(cache.tmp) - {tmpPath}
    {
      if !committed && tmpPath in cache.tmp {
        cache.tmp := cache.tmp - {tmpPath};
      }
    }
  }

  /** Only this writer's bytes, or those of a rival, may have come in under `sha`. */
  ghost predicate AddsOnly(before: map<Sha, Bytes>, after: map<Sha, Bytes>, sha: Sha, written: Bytes, rival: Option<Bytes>) {
    || after == before
    || (sha !in before && after == before[sha := written])
    || (sha !in before && rival.Some? && after == before[sha := rival.value])
  }

  /** Verifies the checksum of what was hashed, then commits. Either way the writer is dropped. */
  method FinishDownload(writer: BlobWriter, hashed: Bytes, hash: Bytes -> Sha, f: DiskFaults) returns (r: Result<()>)
    requires !writer.committed && writer.tmpPath in writer.cache.tmp
    modifies writer`committed, writer.cache`tmp, writer.cache`blobs
    ensures hash(hashed) != writer.sha ==>
              r == Err(ChecksumMismatch(writer.sha, hash(hashed))) && writer.cache.blobs == old(writer.cache.blobs)
    ensures r.Ok? ==> hash(hashed) == writer.sha && writer.sha in writer.cache.blobs
    ensures AddsOnly(old(writer.cache.blobs), writer.cache.blobs, writer.sha, old(writer.cache.tmp)[writer.tmpPath], f.rival)
    ensures r.Err? ==> writer.cache.blobs == old(writer.cache.blobs)
    ensures writer.cache.tmp == old(writer.cache.tmp) - {writer.tmpPath}
    ensures r.Ok? <==> hash(hashed) == writer.sha && !f.flush && !f.commitFlush
                       && (!f.rename || f.rival.Some? || writer.sha in old(writer.cache.blobs))
  {
    var actual := hash(hashed);
    if actual != writer.sha {
      writer.Drop();
      return Err(ChecksumMismatch(writer.sha, actual));
    }
    if f.flush {
      writer.Drop();
      return Err(NetworkFailure);
    }
    r := writer.Commit(f);
    writer.Drop();
    assert r.Ok? ==> writer.cache.tmp == old(writer.cache.tmp) - {writer.tmpPath};
  }
}
