/** The object-file store: a staging area, the published bytes, and the latched health flag.
    Every fallible system call has a fault flag that decides whether it fails. */
module ObjectFiles {
  import opened Json
  import opened Paths

  newtype Byte = x: int | 0 <= x < 256
  type Bytes = seq<Byte>

  /** An io.Reader: it hands over the chunks in turn, then ends with EOF or an error. */
  datatype Source = Source(chunks: seq<Bytes>, fails: bool)

  datatype Error =
    | IoError
    | NotExist
    | NotFound(resource: string)
    | Conflict(reason: string)
    | ValidationFailed(field: string)
    | PayloadTooLarge
    | StorageUnavailable(retained: Option<StagePath>)

  datatype Result<+T> = Ok(value: T) | Err(error: Error)

  /** The primary key of an object file. */
  datatype Key = Key(objectId: string, fileId: string)

  /** A temporary file `staging/<object>/<file>-<suffix>`. */
  datatype StagePath = StagePath(objectId: string, fileId: string, suffix: nat)

  /** A staged file handed to a store, with the size it was announced to have. */
  datatype PreStaged = PreStaged(path: StagePath, size: int)

  /** `writable` bytes reach the disk before a write fails. */
  datatype StageFaults = StageFaults(mkdir: bool, create: bool, writable: nat, sync: bool, remove: bool)

  datatype AppendFaults = AppendFaults(mkdir: bool, open: bool, lock: bool, stat: bool, writable: nat, sync: bool,
                                       truncate: bool, close: bool)

  datatype PromoteFaults = PromoteFaults(mkdir: bool, rename: bool)

  function Flatten(chunks: seq<Bytes>): Bytes {
    if chunks == [] then [] else chunks[0] + Flatten(chunks[1..])
  }

  function Content(src: Source): Bytes {
    Flatten(src.chunks)
  }

  /** The bytes a LimitedReader passes on. */
  function Limited(src: Source, limit: nat): Bytes {
    if |Content(src)| <= limit then Content(src) else Content(src)[..limit]
  }

  /** The reader ends with EOF or at the limit, and the disk takes all of it. */
  predicate CopyGoesThrough(src: Source, limit: nat, writable: nat) {
    |Limited(src, limit)| <= writable && (src.fails ==> |Content(src)| >= limit)
  }

  /** As much of the limited content as the disk takes. */
  function Landing(src: Source, limit: nat, writable: nat): Bytes {
    var wanted := Limited(src, limit);
    if |wanted| <= writable then wanted else wanted[..writable]
  }

  /** `io.Copy` from a LimitedReader into a file, chunk by chunk: independent of the chunking, all of
      the limited content lands, or a proper prefix of it and an error is reported. */
  method Copy(src: Source, limit: nat, writable: nat) returns (landed: Bytes, ok: bool)
    ensures landed == Landing(src, limit, writable)
    ensures ok <==> CopyGoesThrough(src, limit, writable)
  {
    landed := [];
    var rest := src.chunks;
    while rest != []
      invariant landed + Flatten(rest) == Content(src)
      invariant |landed| <= limit && |landed| <= writable
    {
      if |landed| == limit {
        assert landed == Content(src)[..limit];
        return landed, true;
      }
      var chunk := rest[0];
      assert landed + (chunk + Flatten(rest[1..])) == (landed + chunk) + Flatten(rest[1..]);
      var room := limit - |landed|;
      if |chunk| > room {
        chunk := chunk[..room];
        assert landed + chunk == Content(src)[..limit];
      }
      if |chunk| > writable - |landed| {
        landed := landed + chunk[..writable - |landed|];
        return landed, false;
      }
      landed := landed + chunk;
      if |landed| == limit {
        assert landed == Content(src)[..limit];
        return landed, true;
      }
      rest := rest[1..];
    }
    ok := !src.fails || |landed| == limit;
  }

  class FileStore {
    const root: string
    var objects: map<string, Bytes>
    var staging: map<StagePath, Bytes>
    var nextTemp: nat
    var healthy: bool
    var message: string

    constructor (root: string)
      ensures this.root == root && healthy && objects == map[] && staging == map[] && FreshNames()
    {
      this.root := root;
      objects, staging, nextTemp, healthy, message := map[], map[], 0, true, "";
    }

    /** CreateTemp never picks a name in use. */
    predicate FreshNames()
      reads this
    {
      forall p | p in staging :: p.suffix < nextTemp
    }

    predicate Resolves(path: string) {
      AbsolutePath(root, path).Some?
    }

    method MarkMismatch(text: string)
      modifies this`healthy, this`message
      ensures !healthy && message == text
    {
      healthy, message := false, text;
    }

    predicate StageGoesThrough(objectId: string, fileId: string, src: Source, maxBytes: nat, f: StageFaults) {
      && IsValidId(objectId) && IsValidId(fileId) && !f.mkdir && !f.create && !f.sync
      && !src.fails && 0 < |Content(src)| <= maxBytes && |Content(src)| <= f.writable
    }

    /** `Stage`. On an error the temporary file is removed again, unless the removal fails. */
    method Stage(objectId: string, fileId: string, src: Source, maxBytes: nat, f: StageFaults)
      returns (r: Result<(StagePath, nat)>)
      requires FreshNames()
      modifies this`staging, this`nextTemp
      ensures FreshNames()
      ensures r.Ok? ==>
                && IsValidId(objectId) && IsValidId(fileId)
                && var (p, size) := r.value;
                && p !in old(staging) && p.objectId == objectId && p.fileId == fileId
                && staging == old(staging)[p := Content(src)]
                && size == |Content(src)| && 0 < size <= maxBytes && !src.fails
      ensures r.Err? && !f.remove ==> staging == old(staging)
      ensures r.Ok? <==> StageGoesThrough(objectId, fileId, src, maxBytes, f)
    {
      if !IsValidId(objectId) || !IsValidId(fileId) {
        return Err(ValidationFailed("path"));
      }
      if f.mkdir || f.create {
        return Err(IoError);
      }
      var temp := StagePath(objectId, fileId, nextTemp);
      nextTemp := nextTemp + 1;
      staging := staging[temp := []];
      var landed, ok := Copy(src, maxBytes + 1, f.writable);
      staging := staging[temp := landed];
      if !ok {
        r := Err(IoError);
      } else if |landed| == 0 {
        r := Err(ValidationFailed("file"));
      } else if |landed| > maxBytes {
        r := Err(PayloadTooLarge);
      } else if f.sync {
        r := Err(IoError);
      } else {
        r := Ok((temp, |landed|));
      }
      if r.Err? && !f.remove {
        staging := staging - {temp};
        assert staging == old(staging);
      }
    }

    /** `CleanupStagedPath`: a name that is already gone is not an error. */
    method CleanupStagedPath(p: StagePath, removeFails: bool)
      modifies this`staging
      ensures staging == if removeFails then old(staging) else old(staging) - {p}
    {
      if !removeFails {
        staging := staging - {p};
      }
    }

    /** `Promote`: the staged file becomes the published one, or nothing moves. */
    method Promote(p: StagePath, path: string, f: PromoteFaults) returns (ok: bool)
      modifies this`objects, this`staging
      ensures ok <==> Resolves(path) && !f.mkdir && !f.rename && p in old(staging)
      ensures ok ==> objects == old(objects)[path := old(staging)[p]] && staging == old(staging) - {p}
      ensures !ok ==> objects == old(objects) && staging == old(staging)
    {
      if !Resolves(path) || f.mkdir || f.rename || p !in staging {
        return false;
      }
      objects := objects[path := staging[p]];
      staging := staging - {p};
      return true;
    }

    /** `Delete`: removing bytes that are not there succeeds. */
    method Delete(path: string, removeFails: bool) returns (ok: bool)
      modifies this`objects
      ensures ok <==> Resolves(path) && !removeFails
      ensures objects == if ok then old(objects) - {path} else old(objects)
    {
      ok := Resolves(path) && !removeFails;
      if ok {
        objects := objects - {path};
      }
    }

    /** `TruncateBack`. os.Truncate also pads a file that is shorter than `size`. */
    method TruncateBack(path: string, size: nat, truncateFails: bool) returns (ok: bool)
      modifies this`objects
      ensures ok <==> Resolves(path) && !truncateFails && path in old(objects)
      ensures ok && |old(objects)[path]| >= size ==> objects == old(objects)[path := old(objects)[path][..size]]
      ensures ok && |old(objects)[path]| < size ==>
                exists zeros: Bytes :: objects == old(objects)[path := old(objects)[path] + zeros]
                                       && |zeros| == size - |old(objects)[path]| && forall i | 0 <= i < |zeros| :: zeros[i] == 0
      ensures !ok ==> objects == old(objects)
    {
      if !Resolves(path) || truncateFails || path !in objects {
        return false;
      }
      var bytes := objects[path];
      if |bytes| < size {
        var zeros: Bytes := seq(size - |bytes|, _ => 0 as Byte);
        objects := objects[path := bytes + zeros];
      } else {
        objects := objects[path := bytes[..size]];
      }
      return true;
    }

    /** What an append needs to go through, besides the file being there. */
    predicate AppendGoesThrough(src: Source, maxBytes: nat, f: AppendFaults) {
      && !f.mkdir && !f.open && !f.lock && !f.stat && !f.sync && !f.close
      && !src.fails && 0 < |Content(src)| <= maxBytes && |Content(src)| <= f.writable
    }

    /** The copy, the size check or the sync fails after the append has begun. */
    predicate NeedsRollBack(src: Source, maxBytes: nat, f: AppendFaults) {
      !CopyGoesThrough(src, maxBytes + 1, f.writable) || |Content(src)| > maxBytes || f.sync
    }

    /** A failing append that leaves bytes behind: some are down, and the roll-back truncation fails, or
        none is needed and the close fails. */
    predicate Strands(path: string, src: Source, maxBytes: nat, f: AppendFaults)
      reads this
    {
      && Resolves(path) && path in objects && !f.mkdir && !f.open && !f.lock && !f.stat
      && |Content(src)| > 0 && f.writable > 0
      && if NeedsRollBack(src, maxBytes, f) then f.truncate else f.close
    }

    /** `Append`. Success adds the whole body and reports the sizes around it; an error leaves the
        file alone, unless the roll-back truncation or the close fails, and then the file has grown
        by what the copy put down. */
    method Append(path: string, src: Source, maxBytes: nat, f: AppendFaults) returns (r: Result<(nat, nat)>)
      modifies this`objects
      ensures r.Ok? <==> Resolves(path) && path in old(objects) && AppendGoesThrough(src, maxBytes, f)
      ensures r.Ok? ==>
                && objects == old(objects)[path := old(objects)[path] + Content(src)]
                && r.value == (|old(objects)[path]|, |old(objects)[path]| + |Content(src)|)
      ensures r.Err? && !old(Strands(path, src, maxBytes, f)) ==> objects == old(objects)
      ensures old(Strands(path, src, maxBytes, f)) ==>
                && r.Err? && Landing(src, maxBytes + 1, f.writable) != []
                && objects == old(objects)[path := old(objects)[path] + Landing(src, maxBytes + 1, f.writable)]
    {
      if !Resolves(path) || f.mkdir || f.open || path !in objects || f.lock || f.stat {
        return Err(IoError);
      }
      var before := objects[path];
      var landed, ok := Copy(src, maxBytes + 1, f.writable);
      objects := objects[path := before + landed];
      assert landed != [] <==> |Content(src)| > 0 && f.writable > 0;
      assert landed == [] ==> before + landed == before;
      if ok && |landed| == 0 {
        assert before + landed == before;
        return Err(ValidationFailed("body"));
      }
      if !ok || |landed| > maxBytes || f.sync {
        var rolledBack := TruncateBack(path, |before|, f.truncate);
        assert (before + landed)[..|before|] == before;
        return Err(if ok && |landed| > maxBytes then PayloadTooLarge else IoError);
      }
      if f.close {
        return Err(IoError);
      }
      return Ok((|before|, |before| + |landed|));
    }

    /** `Open` and its Stat. */
    method Open(path: string, openFails: bool) returns (r: Result<Bytes>)
      ensures r.Ok? <==> Resolves(path) && !openFails && path in objects
      ensures r.Ok? ==> r.value == objects[path]
      ensures r == Err(NotExist) <==> Resolves(path) && !openFails && path !in objects
    {
      if !Resolves(path) || openFails {
        return Err(IoError);
      }
      if path !in objects {
        return Err(NotExist);
      }
      return Ok(objects[path]);
    }
  }
}
