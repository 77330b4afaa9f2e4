/** The store's transaction and compensation sequences. Tables change only at a commit; each step
    may fail as its fault flag says. Every method ends in one of the outcomes of `FileProtocol`. */
module PostgresStore {
  import opened Json
  import opened Paths
  import opened ObjectFiles
  import opened FileProtocol

  const DEFAULT_UPLOAD_LIMIT: nat := 16 * 1024 * 1024

  /** Failures of the database steps, in the order a method takes them. */
  datatype TxFaults = TxFaults(begin: bool, read: bool, write1: bool, write2: bool, commit: bool, reread: bool)

  datatype UploadInput = UploadInput(key: Key, source: Source, maxBytes: int, preStaged: Option<PreStaged>)

  /** `lstat` and `resolve` fail before the store takes ownership of a pre-staged file. */
  datatype UploadFaults = UploadFaults(lstat: bool, resolve: bool, stage: StageFaults, tx: TxFaults,
                                       promote: PromoteFaults, remove: bool)

  datatype AppendCallFaults = AppendCallFaults(tx: TxFaults, append: AppendFaults, truncate: bool)

  /** `unlink` holds the paths whose removal fails. */
  datatype DeleteFaults = DeleteFaults(tx: TxFaults, unlink: set<string>)

  /** The limit of two that may be absent, absent ones being zero or less: the smaller that is there, and 16 MiB
      if neither is. */
  predicate IsLimit(limit: int, requested: int, configured: int) {
    if requested <= 0 && configured <= 0 then limit == 16777216
    else
      && (requested > 0 ==> limit <= requested) && (configured > 0 ==> limit <= configured)
      && (limit == requested > 0 || limit == configured > 0)
  }

  /** `chooseLimit`: the request's own limit, capped by the configured one. */
  function ChooseLimit(requested: int, fallback: int): (limit: nat)
    ensures limit > 0 && IsLimit(limit, requested, fallback)
    ensures forall l | IsLimit(l, requested, fallback) :: l == limit
  {
    if requested > 0 then (if fallback > 0 && requested > fallback then fallback else requested)
    else if fallback > 0 then fallback
    else DEFAULT_UPLOAD_LIMIT
  }

  /** No step of the transaction up to its commit fails. */
  predicate TxGoesThrough(f: TxFaults) {
    !f.begin && !f.read && !f.write1 && !f.write2 && !f.commit
  }

  const OWNER_TYPES: set<string> := {"entity", "observation", "task", "system"}

  /** The length constraint on every ID column. */
  predicate FitsId(id: string) {
    1 <= |id| <= 50
  }

  class Store {
    const files: FileStore
    const maxUpload: int
    var db: Tables
    ghost var committed: map<Key, Bytes>

    constructor (files: FileStore, maxUpload: int)
      requires files.healthy && files.objects == map[] && files.FreshNames()
      ensures this.files == files && this.maxUpload == maxUpload && db == EMPTY_TABLES
      ensures Valid() && Settled(TheWorld())
    {
      this.files, this.maxUpload := files, maxUpload;
      this.db, this.committed := EMPTY_TABLES, map[];
    }

    ghost function TheWorld(): World
      reads this, files
    {
      World(db, files.objects, files.healthy, committed)
    }

    ghost predicate Valid()
      reads this, files
    {
      Consistent(db) && ReferencesHold(db) && PrefixHeld(TheWorld()) && files.FreshNames()
    }

    /** The bytes an upload is about. */
    ghost function UploadBytes(input: UploadInput): Bytes
      reads files
    {
      match input.preStaged
      case None => Content(input.source)
      case Some(s) => if s.path in files.staging then files.staging[s.path] else []
    }

    /** The store takes a pre-staged file over, to clean it up on failure, once it has found it. */
    predicate TakesOver(s: PreStaged, f: UploadFaults)
      reads files
    {
      s.size >= 0 && !f.lstat && !f.resolve && s.path in files.staging
    }

    predicate PreStagedGoesThrough(s: PreStaged, limit: nat, f: UploadFaults)
      reads files
    {
      && !f.lstat && !f.resolve && s.path in files.staging
      && |files.staging[s.path]| == s.size && 0 < s.size <= limit
    }

    /** The body can be staged, or the staged file taken over. */
    predicate ClaimGoesThrough(input: UploadInput, f: UploadFaults)
      reads files
    {
      var limit := ChooseLimit(input.maxBytes, maxUpload);
      match input.preStaged
      case None => files.StageGoesThrough(input.key.objectId, input.key.fileId, input.source, limit, f.stage)
      case Some(s) => PreStagedGoesThrough(s, limit, f)
    }

    predicate InsertGoesThrough(key: Key, f: TxFaults)
      reads this
    {
      && IsValidId(key.objectId) && IsValidId(key.fileId)
      && key.objectId in db.objects && key !in db.files && TxGoesThrough(f)
    }

    predicate PromotionWorks(key: Key, f: PromoteFaults) {
      !f.mkdir && !f.rename && files.Resolves(ObjectPath(key.objectId, key.fileId))
    }

    /** What an upload needs for its row to be committed. */
    predicate UploadCommits(input: UploadInput, f: UploadFaults)
      reads this, files
    {
      ClaimGoesThrough(input, f) && InsertGoesThrough(input.key, f.tx)
    }

    /** What it needs to go through: that, and a promotion that works. */
    predicate UploadGoesThrough(input: UploadInput, f: UploadFaults)
      reads this, files
    {
      UploadCommits(input, f) && PromotionWorks(input.key, f.promote)
    }

    /** The pre-staged branch of `CreateObjectFile`: `owned` is the staged path once accepted. */
    method AcceptPreStaged(s: PreStaged, limit: nat, f: UploadFaults)
      returns (owned: Option<StagePath>, r: Result<nat>)
      ensures owned.Some? ==> owned.value == s.path && s.path in files.staging
      ensures owned.Some? <==> TakesOver(s, f)
      ensures r.Ok? ==> owned.Some? && r.value == |files.staging[s.path]| && 0 < r.value <= limit
      ensures r.Ok? <==> PreStagedGoesThrough(s, limit, f)
      ensures r.Err? ==> !r.error.StorageUnavailable?
    {
      if s.size < 0 {
        return None, Err(ValidationFailed("pre_staged"));
      }
      if f.lstat || s.path !in files.staging || f.resolve {
        return None, Err(IoError);
      }
      owned := Some(s.path);
      var size := |files.staging[s.path]|;
      if size != s.size {
        r := Err(ValidationFailed("pre_staged"));
      } else if size == 0 {
        r := Err(ValidationFailed("file"));
      } else if size > limit {
        r := Err(PayloadTooLarge);
      } else {
        r := Ok(size);
      }
    }

    /** The checks and writes of the upload's transaction, up to its commit. */
    method CheckInsert(key: Key, f: TxFaults) returns (r: Result<()>)
      ensures r.Ok? <==> key.objectId in db.objects && key !in db.files && TxGoesThrough(f)
      ensures !f.begin && !f.read && key.objectId !in db.objects ==> r == Err(NotFound("object"))
      ensures !f.begin && !f.read && key.objectId in db.objects && key in db.files ==> r == Err(Conflict("already_exists"))
      ensures r.Err? ==> !r.error.StorageUnavailable?
    {
      if f.begin || f.read {
        return Err(IoError);
      }
      if key.objectId !in db.objects {
        return Err(NotFound("object"));
      }
      if key in db.files {
        return Err(Conflict("already_exists"));
      }
      return if f.write1 || f.write2 || f.commit then Err(IoError) else Ok(());
    }

    method PromoteOrLatch(staged: StagePath, path: string, f: PromoteFaults) returns (ok: bool)
      requires staged in files.staging
      modifies files
      ensures ok <==> !f.mkdir && !f.rename && files.Resolves(path)
      ensures files.objects == if ok then old(files.objects)[path := old(files.staging)[staged]] else old(files.objects)
      ensures files.staging == if ok then old(files.staging) - {staged} else old(files.staging)
      ensures files.healthy == (old(files.healthy) && ok) && files.nextTemp == old(files.nextTemp)
    {
      ok := files.Promote(staged, path, f);
      if !ok {
        files.MarkMismatch("object file metadata committed but byte promotion failed");
      }
    }

    /** Committing the row, then promoting the staged bytes under it. */
    method CommitAndPromote(key: Key, row: FileRow, staged: StagePath, f: PromoteFaults, ghost bytes: Bytes)
      returns (promoted: bool, ghost o: Outcome)
      requires Valid() && CanCreate(TheWorld(), key)
      requires row == FileRow(LogicalPath(key.objectId, key.fileId).value, |bytes|)
      requires staged in files.staging && files.staging[staged] == bytes
      modifies this`db, this`committed, files
      ensures Valid() && Moves(o, old(TheWorld()), TheWorld())
      ensures o == if promoted then Uploaded(key, bytes) else PromotionFailed(key, |bytes|)
      ensures promoted <==> !f.mkdir && !f.rename && files.Resolves(row.path)
      ensures files.staging == if promoted then old(files.staging) - {staged} else old(files.staging)
      ensures key in db.files && db.files[key] == row
    {
      ghost var w := TheWorld();
      db := db.(files := db.files[key := row]);
      promoted := PromoteOrLatch(staged, row.path, f);
      committed := if promoted then committed[key := bytes] else committed;
      o := if promoted then Uploaded(key, bytes) else PromotionFailed(key, |bytes|);
      PromotionOfOne(w, TheWorld(), key, bytes, promoted);
    }

    /** A file the call will clean up if it fails: its own, or one it was given. */
    ghost predicate IsClaimed(input: UploadInput, staged: StagePath, before: map<StagePath, Bytes>)
      reads files
    {
      match input.preStaged
      case None => staged !in before && files.staging == before[staged := Content(input.source)]
      case Some(s) => staged == s.path && staged in before && files.staging == before
    }

    /** The start of `CreateObjectFile`: staging the body, or taking the staged file over. */
    method Claim(input: UploadInput, f: UploadFaults) returns (staged: Option<StagePath>, r: Result<nat>)
      requires Valid()
      modifies files`staging, files`nextTemp
      ensures Valid() && TheWorld() == old(TheWorld())
      ensures r.Ok? <==> old(ClaimGoesThrough(input, f))
      ensures r.Ok? ==> staged.Some? && 0 < r.value == |old(UploadBytes(input))| <= ChooseLimit(input.maxBytes, maxUpload)
      ensures r.Err? ==> !r.error.StorageUnavailable?
      ensures staged.Some? ==> IsClaimed(input, staged.value, old(files.staging))
      ensures staged.None? && !f.stage.remove ==> files.staging == old(files.staging)
      ensures staged.Some? <==> match input.preStaged case None => r.Ok? case Some(s) => old(TakesOver(s, f))
    {
      var limit := ChooseLimit(input.maxBytes, maxUpload);
      if input.preStaged.Some? {
        staged, r := AcceptPreStaged(input.preStaged.value, limit, f);
        return;
      }
      var written := files.Stage(input.key.objectId, input.key.fileId, input.source, limit, f.stage);
      if written.Err? {
        return None, Err(if written.error.StorageUnavailable? then IoError else written.error);
      }
      return Some(written.value.0), Ok(written.value.1);
    }

    /** How result and outcome go together. */
    ghost predicate EndsAs(key: Key, bytes: Bytes, r: Result<FileRow>, o: Outcome)
      reads this
    {
      && o == (if r.Ok? then Uploaded(key, bytes)
               else if r.error.StorageUnavailable? then PromotionFailed(key, |bytes|) else Nothing)
      && (!o.Nothing? ==> key in db.files)
      && (r.Ok? ==> r.value == db.files[key])
    }

    /** The staging area before the deferred cleanup: what was claimed is there unless it is published. */
    ghost predicate StillHolds(input: UploadInput, staged: StagePath, before: map<StagePath, Bytes>, bytes: Bytes, o: Outcome)
      reads files
    {
      match input.preStaged
      case None => staged !in before && files.staging == if o.Uploaded? then before else before[staged := bytes]
      case Some(s) =>
        staged == s.path && staged in before && files.staging == if o.Uploaded? then before - {staged} else before
    }

    /** The rest of it, up to the deferred cleanup. */
    method InsertAndPromote(key: Key, staged: StagePath, size: nat, f: UploadFaults, ghost bytes: Bytes)
      returns (r: Result<FileRow>, ghost o: Outcome)
      requires Valid() && staged in files.staging && files.staging[staged] == bytes && size == |bytes|
      modifies this`db, this`committed, files
      ensures Valid() && Moves(o, old(TheWorld()), TheWorld())
      ensures EndsAs(key, bytes, r, o)
      ensures r.Err? && r.error.StorageUnavailable? ==> r.error == StorageUnavailable(Some(staged)) && !files.healthy
      ensures !o.Nothing? <==> old(InsertGoesThrough(key, f.tx))
      ensures !o.Nothing? ==> (r.Ok? <==> PromotionWorks(key, f.promote))
      ensures files.staging == if r.Ok? then old(files.staging) - {staged} else old(files.staging)
    {
      o := Nothing;
      var logical := LogicalPath(key.objectId, key.fileId);
      if logical.None? {
        return Err(ValidationFailed("path")), o;
      }
      var inserted := CheckInsert(key, f.tx);
      if inserted.Err? {
        return Err(inserted.error), o;
      }
      var row := FileRow(logical.value, size);
      var promoted;
      promoted, o := CommitAndPromote(key, row, staged, f.promote, bytes);
      r := if promoted then Ok(row) else Err(StorageUnavailable(Some(staged)));
    }

    method InsertClaimed(input: UploadInput, staged: StagePath, size: nat, f: UploadFaults,
                         ghost before: map<StagePath, Bytes>, ghost bytes: Bytes)
      returns (r: Result<FileRow>, ghost o: Outcome)
      requires Valid() && IsClaimed(input, staged, before) && files.staging[staged] == bytes && size == |bytes|
      modifies this`db, this`committed, files
      ensures Valid() && Moves(o, old(TheWorld()), TheWorld())
      ensures EndsAs(input.key, bytes, r, o) && StillHolds(input, staged, before, bytes, o)
      ensures o.PromotionFailed? ==> !files.healthy && r.error.retained == Some(staged)
      ensures !o.Nothing? <==> old(InsertGoesThrough(input.key, f.tx))
      ensures !o.Nothing? ==> (r.Ok? <==> PromotionWorks(input.key, f.promote))
    {
      r, o := InsertAndPromote(input.key, staged, size, f, bytes);
    }

    /** `CreateObjectFile` up to its deferred cleanup. */
    method StageCommitPromote(input: UploadInput, f: UploadFaults)
      returns (staged: Option<StagePath>, r: Result<FileRow>, ghost o: Outcome)
      requires Valid()
      modifies this`db, this`committed, files
      ensures Valid() && Moves(o, old(TheWorld()), TheWorld())
      ensures EndsAs(input.key, old(UploadBytes(input)), r, o)
      ensures r.Ok? <==> old(UploadGoesThrough(input, f))
      ensures o.PromotionFailed? <==> old(UploadCommits(input, f)) && !old(UploadGoesThrough(input, f))
      ensures o.PromotionFailed? ==> !files.healthy && r.error.retained == staged
      ensures r.Ok? ==> 0 < |old(UploadBytes(input))| <= ChooseLimit(input.maxBytes, maxUpload)
      ensures !o.Nothing? ==> staged.Some?
      ensures staged.Some? ==> StillHolds(input, staged.value, old(files.staging), old(UploadBytes(input)), o)
      ensures staged.None? && !f.stage.remove ==> files.staging == old(files.staging)
      ensures input.preStaged.Some? ==> (staged.Some? <==> old(TakesOver(input.preStaged.value, f)))
    {
      o := Nothing;
      var size;
      staged, size := Claim(input, f);
      if size.Err? {
        r := Err(size.error);
        return;
      }
      r, o := InsertClaimed(input, staged.value, size.value, f, old(files.staging), old(UploadBytes(input)));
    }

    /** The staging area afterwards: the published file is gone from it, one kept for recovery is there, and
        otherwise the call took its own file away, and the one it had taken over. */
    ghost predicate StagingIsClean(input: UploadInput, tookOver: bool, before: map<StagePath, Bytes>, bytes: Bytes,
                                   o: Outcome, retained: Option<StagePath>)
      requires o.PromotionFailed? ==> retained.Some?
      reads files
    {
      match input.preStaged
      case None => files.staging == if o.PromotionFailed? then before[retained.value := bytes] else before
      case Some(s) =>
        && (o.PromotionFailed? ==> retained.value == s.path)
        && files.staging == if o.Uploaded? || (o.Nothing? && tookOver) then before - {s.path} else before
    }

    function Retained(r: Result<FileRow>): Option<StagePath> {
      if r.Err? && r.error.StorageUnavailable? then r.error.retained else None
    }

    /** `CreateObjectFile` with its deferred cleanup. On success the bytes are published under the new
        row; if promotion fails after the commit the staged bytes stay for recovery and the flag drops;
        otherwise nothing changed and no staged file the store owned is left, removals permitting. */
    method CreateObjectFile(input: UploadInput, f: UploadFaults) returns (r: Result<FileRow>, ghost o: Outcome)
      requires Valid()
      modifies this`db, this`committed, files
      ensures Valid() && Moves(o, old(TheWorld()), TheWorld())
      ensures EndsAs(input.key, old(UploadBytes(input)), r, o)
      ensures r.Ok? <==> old(UploadGoesThrough(input, f))
      ensures o.PromotionFailed? <==> old(UploadCommits(input, f)) && !old(UploadGoesThrough(input, f))
      ensures o.PromotionFailed? ==> !files.healthy && r.error.retained.Some?
      ensures r.Ok? ==> 0 < |old(UploadBytes(input))| <= ChooseLimit(input.maxBytes, maxUpload)
      ensures !o.Nothing? || (!f.remove && !f.stage.remove) ==>
                StagingIsClean(input, input.preStaged.Some? && old(TakesOver(input.preStaged.value, f)),
                               old(files.staging), old(UploadBytes(input)), o, Retained(r))
    {
      var staged;
      staged, r, o := StageCommitPromote(input, f);
      var removeStaged := r.Err? && !r.error.StorageUnavailable?;
      if removeStaged && staged.Some? {
        files.CleanupStagedPath(staged.value, f.remove);
      }
    }

    ghost predicate HasGrown(w: World, key: Key, chunk: Bytes)
      reads this, files
    {
      && key in w.db.files && w.db.files[key].path in w.disk
      && TheWorld() == w.(disk := w.disk[w.db.files[key].path := w.disk[w.db.files[key].path] + chunk])
    }

    /** What the file store's own append leaves behind when it reports an error. */
    lemma FailedAppend(key: Key, w: World, junk: Bytes) returns (o: Outcome)
      requires Consistent(w.db) && ReferencesHold(w.db) && PrefixHeld(w) && files.FreshNames()
      requires if junk == [] then TheWorld() == w else HasGrown(w, key, junk)
      ensures Valid() && Moves(o, w, TheWorld())
      ensures o == if junk == [] then Nothing else Stranded(key, junk, false)
    {
      o := if junk == [] then Nothing else Stranded(key, junk, false);
      PrefixIsKept(o, w, TheWorld());
    }

    /** Truncating a grown file to the size it had before. */
    method CutBackOrLatch(path: string, preDisk: nat, fails: bool, committing: bool,
                          ghost disk: map<string, Bytes>, ghost chunk: Bytes)
      returns (ok: bool)
      requires path in disk && preDisk == |disk[path]| && files.objects == disk[path := disk[path] + chunk]
      modifies files`objects, files`healthy, files`message
      ensures ok <==> files.Resolves(path) && !fails
      ensures files.objects == if ok then disk else old(files.objects)
      ensures files.healthy == (old(files.healthy) && ok && !committing)
    {
      ok := files.TruncateBack(path, preDisk, fails);
      assert (disk[path] + chunk)[..preDisk] == disk[path];
      if !ok || committing {
        files.MarkMismatch("object file append was not recorded");
      }
    }

    /** The roll-back after a failed database step: truncate to the size the file really had, and
        latch if that fails or if it was the commit that failed. */
    method Compensate(key: Key, preDisk: nat, f: AppendCallFaults, ghost w: World, ghost chunk: Bytes)
      returns (ghost o: Outcome)
      requires Consistent(w.db) && ReferencesHold(w.db) && PrefixHeld(w) && files.FreshNames()
      requires HasGrown(w, key, chunk) && preDisk == |w.disk[w.db.files[key].path]|
      requires f.tx.write1 || f.tx.write2 || f.tx.commit
      modifies files`objects, files`healthy, files`message
      ensures Valid() && Moves(o, w, TheWorld()) && !IsSilent(o)
      ensures o == if f.truncate || !files.Resolves(w.db.files[key].path) then Stranded(key, chunk, true)
                   else if f.tx.write1 || f.tx.write2 then Nothing else Latched
    {
      var path := db.files[key].path;
      var committing := !f.tx.write1 && !f.tx.write2;
      var truncated := CutBackOrLatch(path, preDisk, f.truncate, committing, w.disk, chunk);
      o := if !truncated then Stranded(key, chunk, true) else if committing then Latched else Nothing;
      CompensationOfOne(w, TheWorld(), key, chunk, truncated, committing);
    }

    method CommitAppend(key: Key, newSize: nat, ghost w: World, ghost chunk: Bytes) returns (ghost o: Outcome)
      requires Consistent(w.db) && ReferencesHold(w.db) && PrefixHeld(w) && files.FreshNames()
      requires HasGrown(w, key, chunk) && newSize == |w.disk[w.db.files[key].path]| + |chunk|
      modifies this`db, this`committed
      ensures Valid() && o == Appended(key, chunk) && Moves(o, w, TheWorld()) && key in db.files
    {
      var path := db.files[key].path;
      db := db.(files := db.files[key := FileRow(path, newSize)]);
      if key in committed {
        committed := committed[key := files.objects[path]];
      }
      o := Appended(key, chunk);
      AppendOfOne(w, TheWorld(), key, chunk);
    }

    /** The database steps after the file has grown, and reading the row back. */
    method RecordAppend(key: Key, preDisk: nat, newSize: nat, f: AppendCallFaults, ghost w: World, ghost chunk: Bytes)
      returns (r: Result<FileRow>, ghost o: Outcome)
      requires Consistent(w.db) && ReferencesHold(w.db) && PrefixHeld(w) && files.FreshNames()
      requires HasGrown(w, key, chunk) && preDisk == |w.disk[w.db.files[key].path]| && newSize == preDisk + |chunk|
      modifies this`db, this`committed, files`objects, files`healthy, files`message
      ensures Valid() && Moves(o, w, TheWorld()) && !IsSilent(o)
      ensures o == if !f.tx.write1 && !f.tx.write2 && !f.tx.commit then Appended(key, chunk)
                   else if f.truncate || !files.Resolves(w.db.files[key].path) then Stranded(key, chunk, true)
                   else if f.tx.write1 || f.tx.write2 then Nothing else Latched
      ensures r.Ok? <==> o.Appended? && !f.tx.reread
      ensures r.Ok? ==> key in db.files && r.value == db.files[key]
      ensures r.Err? && r.error.StorageUnavailable? ==> !files.healthy && f.tx.commit
    {
      if f.tx.write1 || f.tx.write2 || f.tx.commit {
        o := Compensate(key, preDisk, f, w, chunk);
        return Err(if f.tx.write1 || f.tx.write2 then IoError else StorageUnavailable(None)), o;
      }
      o := CommitAppend(key, newSize, w, chunk);
      r := if f.tx.reread then Err(IoError) else Ok(db.files[key]);
    }

    /** When an append leaves bytes behind with the flag up, in terms of the call and its faults. */
    predicate AppendEndsSilently(key: Key, src: Source, maxBytes: int, f: AppendCallFaults)
      reads this, files
    {
      && !f.tx.begin && !f.tx.read && key in db.files
      && files.Strands(db.files[key].path, src, ChooseLimit(maxBytes, maxUpload), f.append)
    }

    /** The bytes it leaves then. */
    function JunkOf(key: Key, src: Source, maxBytes: int, f: AppendCallFaults): Bytes
      reads this, files
    {
      if AppendEndsSilently(key, src, maxBytes, f)
      then Landing(src, ChooseLimit(maxBytes, maxUpload) + 1, f.append.writable) else []
    }

    /** When an append is committed; reading the row back comes after that. */
    predicate AppendCommits(key: Key, src: Source, maxBytes: int, f: AppendCallFaults)
      reads this, files
    {
      && key in db.files && files.Resolves(db.files[key].path) && db.files[key].path in files.objects
      && files.AppendGoesThrough(src, ChooseLimit(maxBytes, maxUpload), f.append) && TxGoesThrough(f.tx)
    }

    /** The file store's part of an append. */
    method GrowFile(key: Key, src: Source, maxBytes: int, f: AppendCallFaults)
      returns (r: Result<(nat, nat)>, ghost o: Outcome)
      requires Valid() && key in db.files && !f.tx.begin && !f.tx.read
      modifies files`objects
      ensures r.Ok? <==>
                && files.Resolves(db.files[key].path) && db.files[key].path in old(files.objects)
                && files.AppendGoesThrough(src, ChooseLimit(maxBytes, maxUpload), f.append)
      ensures r.Ok? ==>
                && HasGrown(old(TheWorld()), key, Content(src)) && r.value.0 == |old(files.objects)[db.files[key].path]|
                && r.value.1 == r.value.0 + |Content(src)| && !old(AppendEndsSilently(key, src, maxBytes, f))
      ensures r.Err? ==> Valid() && Moves(o, old(TheWorld()), TheWorld()) && !r.error.StorageUnavailable?
      ensures r.Err? ==>
                var junk := old(JunkOf(key, src, maxBytes, f));
                && o == (if junk == [] then Nothing else Stranded(key, junk, false))
                && (junk != [] <==> old(AppendEndsSilently(key, src, maxBytes, f)))
    {
      o := Nothing;
      ghost var w := TheWorld();
      r := files.Append(db.files[key].path, src, ChooseLimit(maxBytes, maxUpload), f.append);
      if r.Err? {
        o := FailedAppend(key, w, old(JunkOf(key, src, maxBytes, f)));
        r := Err(if r.error.StorageUnavailable? then IoError else r.error);
      }
    }

    /** `AppendObjectFile`. The roll-back target is the size the file had on disk, not the recorded one. */
    method AppendObjectFile(key: Key, src: Source, maxBytes: int, f: AppendCallFaults)
      returns (r: Result<FileRow>, ghost o: Outcome)
      requires Valid()
      modifies this`db, this`committed, files`objects, files`healthy, files`message
      ensures Valid() && Moves(o, old(TheWorld()), TheWorld())
      ensures r.Ok? ==> key in db.files && r.value == db.files[key]
      ensures o.Nothing? || o.Latched? || o.Stranded? || o == Appended(key, Content(src))
      ensures o.Appended? <==> old(AppendCommits(key, src, maxBytes, f))
      ensures r.Ok? <==> old(AppendCommits(key, src, maxBytes, f)) && !f.tx.reread
      ensures r.Err? && r.error.StorageUnavailable? ==> !files.healthy && f.tx.commit
      ensures f.tx.commit ==> !o.Appended?
      ensures o.Latched? ==> f.tx.commit && !f.tx.write1 && !f.tx.write2 && !f.truncate
      ensures o.Stranded? && o.latched ==> f.truncate
      ensures !f.tx.begin && !f.tx.read && key !in old(db).files ==> r == Err(NotFound("object_file"))
      ensures IsSilent(o) <==> old(AppendEndsSilently(key, src, maxBytes, f))
      ensures IsSilent(o) ==> o == Stranded(key, old(JunkOf(key, src, maxBytes, f)), false)
      ensures o.Stranded? ==> o.latched || IsSilent(o)
    {
      o := Nothing;
      if f.tx.begin || f.tx.read {
        return Err(IoError), o;
      }
      if key !in db.files {
        return Err(NotFound("object_file")), o;
      }
      ghost var w := TheWorld();
      var appended;
      appended, o := GrowFile(key, src, maxBytes, f);
      if appended.Err? {
        return Err(appended.error), o;
      }
      r, o := RecordAppend(key, appended.value.0, appended.value.1, f, w, Content(src));
    }

    /** Dropping the flag, and nothing else. */
    method Latch(text: string)
      requires Valid()
      modifies files`healthy, files`message
      ensures Valid() && Moves(Latched, old(TheWorld()), TheWorld()) && !files.healthy
    {
      files.MarkMismatch(text);
    }

    /** `OpenObjectFile`: of a promoted file it hands out exactly the committed content, or it fails,
        and a failure over missing or surplus bytes also drops the flag. */
    method OpenObjectFile(key: Key, readFails: bool, openFails: bool) returns (r: Result<Bytes>, ghost o: Outcome)
      requires Valid()
      modifies files`healthy, files`message
      ensures Valid() && Moves(o, old(TheWorld()), TheWorld()) && (o.Nothing? || o.Latched?)
      ensures r.Ok? && key in committed ==> r.value == committed[key]
      ensures r.Ok? ==> key in db.files && |r.value| == db.files[key].size
      ensures r.Err? && r.error.StorageUnavailable? <==> o.Latched?
      ensures !readFails && !openFails && key in db.files && files.Resolves(db.files[key].path) ==>
                (r.Ok? <==> db.files[key].path in files.objects && |files.objects[db.files[key].path]| == db.files[key].size)
                && (r.Err? ==> o.Latched?)
    {
      o := Nothing;
      if readFails {
        return Err(IoError), o;
      }
      if key !in db.files {
        return Err(NotFound("object_file")), o;
      }
      var row := db.files[key];
      var found := files.Open(row.path, openFails);
      if found.Err? {
        if found.error.NotExist? {
          Latch("object metadata exists but bytes are missing");
          o := Latched;
          return Err(StorageUnavailable(None)), o;
        }
        return Err(IoError), o;
      }
      if |found.value| != row.size {
        Latch("object metadata size does not match bytes");
        o := Latched;
        return Err(StorageUnavailable(None)), o;
      }
      r := Ok(found.value);
    }

    /** `DeleteObjectFile`. */
    method DeleteObjectFile(key: Key, f: DeleteFaults) returns (r: Result<()>, ghost o: Outcome)
      requires Valid()
      modifies this`db, this`committed, files`objects, files`healthy, files`message
      ensures Valid() && Moves(o, old(TheWorld()), TheWorld())
      ensures o.Nothing? || (o.Removed? && o.keys == {key})
      ensures !f.tx.read && key !in old(db).files ==> r == Err(NotFound("object_file"))
      ensures r.Ok? <==> o.Removed? && o.leftBehind == {}
      ensures o.Removed? <==> key in old(db).files && TxGoesThrough(f.tx)
      ensures o.Removed? ==>
                var path := old(db).files[key].path; o.leftBehind == {} <==> files.Resolves(path) && path !in f.unlink
      ensures o.Removed? ==> db == old(db).(files := old(db).files - {key})
    {
      o := Nothing;
      if f.tx.read {
        return Err(IoError), o;
      }
      if key !in db.files {
        return Err(NotFound("object_file")), o;
      }
      if f.tx.begin || f.tx.write1 || f.tx.write2 || f.tx.commit {
        return Err(IoError), o;
      }
      var unlinked;
      unlinked, o := CommitFileRemoval(key, f);
      r := if unlinked then Ok(()) else Err(IoError);
    }

    lemma RemovalHolds(w: World, key: Key, unlinked: bool)
      requires Consistent(w.db) && ReferencesHold(w.db) && PrefixHeld(w) && files.FreshNames() && key in w.db.files
      requires TheWorld() == World(w.db.(files := w.db.files - {key}),
                                   if unlinked then w.disk - {w.db.files[key].path} else w.disk,
                                   w.healthy && unlinked, w.committed - {key})
      ensures Valid() && Moves(Removed({key}, if unlinked then {} else {w.db.files[key].path}), w, TheWorld())
    {
      RemovalOfOne(w, TheWorld(), key, unlinked);
    }

    method UnlinkOrLatch(path: string, fails: bool) returns (ok: bool)
      modifies files`objects, files`healthy, files`message
      ensures ok <==> files.Resolves(path) && !fails
      ensures files.objects == if ok then old(files.objects) - {path} else old(files.objects)
      ensures files.healthy == (old(files.healthy) && ok)
    {
      ok := files.Delete(path, fails);
      if !ok {
        files.MarkMismatch("failed to delete object file from storage after database commit");
      }
    }

    method CommitFileRemoval(key: Key, f: DeleteFaults) returns (unlinked: bool, ghost o: Outcome)
      requires Valid() && key in db.files
      modifies this`db, this`committed, files`objects, files`healthy, files`message
      ensures Valid() && Moves(o, old(TheWorld()), TheWorld())
      ensures o == Removed({key}, if unlinked then {} else {old(db).files[key].path})
      ensures unlinked <==> files.Resolves(old(db).files[key].path) && old(db).files[key].path !in f.unlink
      ensures db == old(db).(files := old(db).files - {key})
    {
      ghost var w := TheWorld();
      var path := db.files[key].path;
      db := db.(files := db.files - {key});
      committed := committed - {key};
      unlinked := UnlinkOrLatch(path, path in f.unlink);
      o := Removed({key}, if unlinked then {} else {path});
      RemovalHolds(w, key, unlinked);
    }

    /** The rows a DELETE ... RETURNING path goes through, in some order. */
    method CollectPaths(keys: set<Key>) returns (paths: seq<string>)
      requires keys <= db.files.Keys
      ensures forall p :: p in paths <==> p in PathsOf(db, keys)
    {
      paths := [];
      var todo := keys;
      while todo != {}
        invariant todo <= keys
        invariant forall p :: p in paths <==> p in PathsOf(db, keys - todo)
      {
        var key :| key in todo;
        assert PathsOf(db, keys - (todo - {key})) == PathsOf(db, keys - todo) + {db.files[key].path};
        todo := todo - {key};
        paths := paths + [db.files[key].path];
      }
      assert keys - todo == keys;
    }

    /** `postCommitObjectFilePathsDelete`: one path failing does not strand the others. */
    method PostCommitDelete(paths: seq<string>, f: DeleteFaults) returns (ghost left: set<string>)
      modifies files`objects, files`healthy, files`message
      ensures left == set p | p in paths && (!files.Resolves(p) || p in f.unlink)
      ensures files.objects == old(files.objects) - ((set p | p in paths) - left)
      ensures files.healthy == (old(files.healthy) && left == {})
    {
      left := {};
      var hadFailure := false;
      for i := 0 to |paths|
        invariant left == set p | p in paths[..i] && (!files.Resolves(p) || p in f.unlink)
        invariant files.objects == old(files.objects) - ((set p | p in paths[..i]) - left)
        invariant files.healthy == old(files.healthy) && hadFailure == (left != {})
      {
        assert paths[..i + 1] == paths[..i] + [paths[i]];
        var ok := files.Delete(paths[i], paths[i] in f.unlink);
        if !ok {
          hadFailure := true;
          left := left + {paths[i]};
        }
      }
      assert paths[..|paths|] == paths;
      if hadFailure {
        files.MarkMismatch("post-delete file cleanup failed");
      }
    }

    lemma RemovingHolds(w: World, keys: set<Key>, left: set<string>, gone: set<string>, objectIds: set<string>)
      requires Consistent(w.db) && ReferencesHold(w.db) && PrefixHeld(w) && files.FreshNames() && objectIds !! Pinned(w.db)
      requires keys == (set k | k in w.db.files && k.objectId in objectIds) && left <= PathsOf(w.db, keys)
      requires TheWorld() == World(w.db.(observations := w.db.observations - gone, objects := w.db.objects - objectIds,
                                         files := w.db.files - keys),
                                   w.disk - (PathsOf(w.db, keys) - left), w.healthy && left == {}, w.committed - keys)
      ensures Valid() && Moves(Removed(keys, left), w, TheWorld())
    {
      PrefixIsKept(Removed(keys, left), w, TheWorld());
    }

    /** The part `DeleteObject` and `DeleteObservation` share once their rows are chosen. */
    method CommitRemoval(keys: set<Key>, gone: set<string>, objectIds: set<string>, f: DeleteFaults)
      returns (ghost o: Outcome)
      requires Valid() && keys == set k | k in db.files && k.objectId in objectIds
      requires objectIds !! Pinned(db)
      modifies this`db, this`committed, files`objects, files`healthy, files`message
      ensures Valid() && Moves(o, old(TheWorld()), TheWorld())
      ensures o.Removed? && o.keys == keys
      ensures o.leftBehind == set p | p in PathsOf(old(db), keys) && (!files.Resolves(p) || p in f.unlink)
      ensures db == old(db).(observations := old(db).observations - gone, objects := old(db).objects - objectIds,
                             files := old(db).files - keys)
    {
      ghost var w := TheWorld();
      var paths := CollectPaths(keys);
      db := db.(observations := db.observations - gone, objects := db.objects - objectIds, files := db.files - keys);
      committed := committed - keys;
      ghost var left := PostCommitDelete(paths, f);
      o := Removed(keys, left);
      assert (set p | p in paths) == PathsOf(w.db, keys);
      RemovingHolds(w, keys, left, gone, objectIds);
    }

    // -------------------------------------------------------------- records without files

    /** A statement of its own, or a transaction, that touches no file row. */
    lemma RecordingHolds(w: World, db': Tables)
      requires Consistent(w.db) && PrefixHeld(w) && files.FreshNames() && TheWorld() == w.(db := db')
      requires db'.files == w.db.files && w.db.objects.Keys <= db'.objects.Keys && ReferencesHold(db')
      ensures Valid() && Moves(Recorded, w, TheWorld())
    {
      PrefixIsKept(Recorded, w, TheWorld());
    }

    method CreateEntity(id: string, fails: bool) returns (r: Result<()>, ghost o: Outcome)
      requires Valid()
      modifies this`db
      ensures Valid() && Moves(o, old(TheWorld()), TheWorld())
      ensures o == if r.Ok? then Recorded else Nothing
      ensures r.Ok? <==> !fails && FitsId(id) && id !in old(db).entities
      ensures r.Ok? ==> db == old(db).(entities := old(db).entities + {id})
    {
      o := Nothing;
      if fails || !FitsId(id) {
        return Err(IoError), o;
      }
      if id in db.entities {
        return Err(Conflict("already_exists")), o;
      }
      ghost var w := TheWorld();
      db, o := db.(entities := db.entities + {id}), Recorded;
      RecordingHolds(w, db);
      r := Ok(());
    }

    /** `DeleteEntity`: the foreign keys refuse an asset that is still referenced. */
    method DeleteEntity(id: string, fails: bool) returns (r: Result<()>, ghost o: Outcome)
      requires Valid()
      modifies this`db
      ensures Valid() && Moves(o, old(TheWorld()), TheWorld())
      ensures o == if r.Ok? then Recorded else Nothing
      ensures r.Ok? <==>
                && !fails && id in old(db).entities && id !in old(db).observations.Values
                && forall t | t in old(db).tasks :: old(db).tasks[t].assetId != id
      ensures r.Ok? ==> db == old(db).(entities := old(db).entities - {id})
    {
      o := Nothing;
      if fails || id in db.observations.Values || exists t | t in db.tasks :: db.tasks[t].assetId == id {
        return Err(IoError), o;
      }
      if id !in db.entities {
        return Err(NotFound("entity")), o;
      }
      ghost var w := TheWorld();
      db, o := db.(entities := db.entities - {id}), Recorded;
      RecordingHolds(w, db);
      r := Ok(());
    }

    method CreateObservation(id: string, assetId: string, fails: bool) returns (r: Result<()>, ghost o: Outcome)
      requires Valid()
      modifies this`db
      ensures Valid() && Moves(o, old(TheWorld()), TheWorld())
      ensures o == if r.Ok? then Recorded else Nothing
      ensures r.Ok? <==> !fails && FitsId(id) && id !in old(db).observations && assetId in old(db).entities
      ensures r.Ok? ==> db == old(db).(observations := old(db).observations[id := assetId])
    {
      o := Nothing;
      if fails || !FitsId(id) {
        return Err(IoError), o;
      }
      if id in db.observations {
        return Err(Conflict("already_exists")), o;
      }
      if assetId !in db.entities {
        return Err(Conflict("invalid_reference")), o;
      }
      ghost var w := TheWorld();
      db, o := db.(observations := db.observations[id := assetId]), Recorded;
      RecordingHolds(w, db);
      r := Ok(());
    }

    method CreateTask(id: string, assetId: string, pin: string, fails: bool) returns (r: Result<()>, ghost o: Outcome)
      requires Valid()
      modifies this`db
      ensures Valid() && Moves(o, old(TheWorld()), TheWorld())
      ensures o == if r.Ok? then Recorded else Nothing
      ensures r.Ok? <==>
                && !fails && FitsId(id) && id !in old(db).tasks
                && assetId in old(db).entities && pin in old(db).objects
      ensures r.Ok? ==> db == old(db).(tasks := old(db).tasks[id := TaskRow(assetId, pin)])
    {
      o := Nothing;
      if fails || !FitsId(id) {
        return Err(IoError), o;
      }
      if id in db.tasks {
        return Err(Conflict("already_exists")), o;
      }
      if assetId !in db.entities || pin !in db.objects {
        return Err(Conflict("invalid_reference")), o;
      }
      ghost var w := TheWorld();
      db, o := db.(tasks := db.tasks[id := TaskRow(assetId, pin)]), Recorded;
      RecordingHolds(w, db);
      r := Ok(());
    }

    method DeleteTask(id: string, fails: bool) returns (r: Result<()>, ghost o: Outcome)
      requires Valid()
      modifies this`db
      ensures Valid() && Moves(o, old(TheWorld()), TheWorld())
      ensures o == if r.Ok? then Recorded else Nothing
      ensures r.Ok? <==> !fails && id in old(db).tasks
      ensures r.Ok? ==> db == old(db).(tasks := old(db).tasks - {id})
    {
      o := Nothing;
      if fails {
        return Err(IoError), o;
      }
      if id !in db.tasks {
        return Err(NotFound("task")), o;
      }
      ghost var w := TheWorld();
      db, o := db.(tasks := db.tasks - {id}), Recorded;
      RecordingHolds(w, db);
      r := Ok(());
    }

    /** `ensureObjectOwnerExists`: a system owner is not looked for. */
    predicate OwnerIsThere(ownerType: string, ownerId: string)
      reads this
    {
      match ownerType
      case "entity" => ownerId in db.entities
      case "observation" => ownerId in db.observations
      case "task" => ownerId in db.tasks
      case _ => true
    }

    /** `CreateObject`: the owner is looked up in the inserting transaction. */
    method CreateObject(id: string, ownerType: string, ownerId: string, f: TxFaults) returns (r: Result<()>, ghost o: Outcome)
      requires Valid()
      modifies this`db
      ensures Valid() && Moves(o, old(TheWorld()), TheWorld())
      ensures o == if r.Ok? then Recorded else Nothing
      ensures r.Ok? <==>
                && !f.begin && !f.read && !f.write1 && !f.commit && FitsId(id) && ownerType in OWNER_TYPES
                && old(OwnerIsThere(ownerType, ownerId)) && id !in old(db).objects
      ensures r.Ok? ==> db == old(db).(objects := old(db).objects[id := ObjectRow(ownerType, ownerId)])
    {
      o := Nothing;
      if f.begin || f.read {
        return Err(IoError), o;
      }
      if !OwnerIsThere(ownerType, ownerId) {
        return Err(NotFound(ownerType)), o;
      }
      if f.write1 || !FitsId(id) || ownerType !in OWNER_TYPES {
        return Err(IoError), o;
      }
      if id in db.objects {
        return Err(Conflict("already_exists")), o;
      }
      if f.commit {
        return Err(IoError), o;
      }
      ghost var w := TheWorld();
      db, o := db.(objects := db.objects[id := ObjectRow(ownerType, ownerId)]), Recorded;
      RecordingHolds(w, db);
      r := Ok(());
    }

    /** `DeleteObject`: refused while a task pins the object; otherwise its rows go, then its bytes. */
    method DeleteObject(id: string, f: DeleteFaults) returns (r: Result<()>, ghost o: Outcome)
      requires Valid()
      modifies this`db, this`committed, files`objects, files`healthy, files`message
      ensures Valid() && Moves(o, old(TheWorld()), TheWorld())
      ensures r.Ok? <==> o.Removed?
      ensures r.Err? ==> o.Nothing?
      ensures r.Ok? <==>
                && id in old(db).objects && id !in Pinned(old(db))
                && !f.tx.begin && !f.tx.write1 && !f.tx.write2 && !f.tx.commit
      ensures !f.tx.begin && !f.tx.write1 && !f.tx.write2 && id in Pinned(old(db)) ==> r == Err(Conflict("referenced"))
      ensures r.Ok? ==>
                && db == old(db).(objects := old(db).objects - {id}, files := old(db).files - o.keys)
                && o.keys == set k | k in old(db).files && k.objectId == id
    {
      o := Nothing;
      if f.tx.begin || f.tx.write1 || f.tx.write2 {
        return Err(IoError), o;
      }
      if id in Pinned(db) {
        return Err(Conflict("referenced")), o;
      }
      if id !in db.objects {
        return Err(NotFound("object")), o;
      }
      if f.tx.commit {
        return Err(IoError), o;
      }
      var keys := set k | k in db.files && k.objectId == id;
      o := CommitRemoval(keys, {}, {id}, f);
      r := Ok(());
    }

    /** `DeleteObservation`: cascades to the objects it owns and their files. */
    method DeleteObservation(id: string, f: DeleteFaults) returns (r: Result<()>, ghost o: Outcome)
      requires Valid()
      modifies this`db, this`committed, files`objects, files`healthy, files`message
      ensures Valid() && Moves(o, old(TheWorld()), TheWorld())
      ensures r.Ok? <==> o.Removed?
      ensures r.Err? ==> o.Nothing?
      ensures !f.tx.begin && !f.tx.write1 && id !in old(db).observations ==> r == Err(NotFound("observation"))
      ensures r.Ok? <==>
        && id in old(db).observations && TxGoesThrough(f.tx)
        && (set x | x in old(db).objects && old(db).objects[x] == ObjectRow("observation", id)) !! Pinned(old(db))
      ensures r.Ok? ==>
        && var owned := set x | x in old(db).objects && old(db).objects[x] == ObjectRow("observation", id);
        && o.keys == (set k | k in old(db).files && k.objectId in owned)
        && db == old(db).(observations := old(db).observations - {id}, objects := old(db).objects - owned,
                          files := old(db).files - o.keys)
    {
      o := Nothing;
      if f.tx.begin || f.tx.write1 {
        return Err(IoError), o;
      }
      if id !in db.observations {
        return Err(NotFound("observation")), o;
      }
      var owned := set x | x in db.objects && db.objects[x] == ObjectRow("observation", id);
      if f.tx.read || f.tx.write2 || !(owned !! Pinned(db)) || f.tx.commit {
        return Err(IoError), o;
      }
      var keys := set k | k in db.files && k.objectId in owned;
      o := CommitRemoval(keys, {id}, owned, f);
      r := Ok(());
    }
  }

  /** The promotion's path resolves exactly when the object ID does not end in two dots, so uploads under
      the other IDs, which validation lets through, never succeed. */
  lemma UploadsNeedPlainIds(s: Store, input: UploadInput, f: UploadFaults)
    requires IsCleanRoot(s.files.root)
    ensures s.UploadGoesThrough(input, f) ==> !EndsWithDots(input.key.objectId)
    ensures s.UploadCommits(input, f) && !f.promote.mkdir && !f.promote.rename ==>
              (s.UploadGoesThrough(input, f) <==> !EndsWithDots(input.key.objectId))
  {
    if IsValidId(input.key.objectId) && IsValidId(input.key.fileId) {
      AbsolutePathIff(s.files.root, input.key.objectId, input.key.fileId);
    }
  }

  /** An upload whose row is committed, with nothing failing in the promotion: under an ID that ends in two
      dots it leaves the row without bytes and drops the flag, under any other it succeeds. */
  method UploadWithoutPromotionFaults(s: Store, input: UploadInput, f: UploadFaults)
    returns (r: Result<FileRow>, ghost o: Outcome)
    requires s.Valid() && IsCleanRoot(s.files.root)
    requires s.UploadCommits(input, f) && !f.promote.mkdir && !f.promote.rename
    modifies s`db, s`committed, s.files
    ensures s.Valid() && Moves(o, old(s.TheWorld()), s.TheWorld()) && input.key in s.db.files
    ensures if EndsWithDots(input.key.objectId) then o.PromotionFailed? && !s.files.healthy
            else o.Uploaded? && s.files.healthy == old(s.files.healthy)
  {
    UploadsNeedPlainIds(s, input, f);
    r, o := s.CreateObjectFile(input, f);
  }

  datatype Call =
    | Upload(input: UploadInput, upload: UploadFaults)
    | Append(key: Key, source: Source, maxBytes: int, append: AppendCallFaults)
    | Open(key: Key, readFails: bool, openFails: bool)
    | DeleteFile(key: Key, delete: DeleteFaults)
    | DeleteWhole(id: string, delete: DeleteFaults)
    | DeleteOwner(id: string, delete: DeleteFaults)
    | AddEntity(id: string, fails: bool)
    | DropEntity(id: string, fails: bool)
    | AddObservation(id: string, assetId: string, fails: bool)
    | AddTask(id: string, assetId: string, pin: string, fails: bool)
    | DropTask(id: string, fails: bool)
    | AddObject(id: string, ownerType: string, ownerId: string, tx: TxFaults)

  predicate IsFileCall(c: Call) {
    c.Upload? || c.Append? || c.Open? || c.DeleteFile? || c.DeleteWhole? || c.DeleteOwner?
  }

  /** When a call leaves bytes behind with the flag up: the state, the input and the faults decide. */
  predicate EndsSilently(s: Store, c: Call)
    reads s, s.files
  {
    c.Append? && s.AppendEndsSilently(c.key, c.source, c.maxBytes, c.append)
  }

  /** The fault that takes: a failed close, or a failed roll-back truncation, inside the file store's append. */
  predicate MayEndSilently(c: Call) {
    c.Append? && (c.append.append.truncate || c.append.append.close)
  }

  method PerformOnFiles(s: Store, c: Call) returns (ghost o: Outcome)
    requires s.Valid() && IsFileCall(c)
    modifies s`db, s`committed, s.files
    ensures s.Valid() && Moves(o, old(s.TheWorld()), s.TheWorld())
    ensures IsSilent(o) <==> old(EndsSilently(s, c))
  {
    match c {
      case Upload(input, f) => var _, out := s.CreateObjectFile(input, f); o := out;
      case Append(key, src, max, f) => var _, out := s.AppendObjectFile(key, src, max, f); o := out;
      case Open(key, readFails, openFails) => var _, out := s.OpenObjectFile(key, readFails, openFails); o := out;
      case DeleteFile(key, f) => var _, out := s.DeleteObjectFile(key, f); o := out;
      case DeleteWhole(id, f) => var _, out := s.DeleteObject(id, f); o := out;
      case DeleteOwner(id, f) => var _, out := s.DeleteObservation(id, f); o := out;
    }
  }

  method PerformOnRecords(s: Store, c: Call) returns (ghost o: Outcome)
    requires s.Valid() && !IsFileCall(c)
    modifies s`db
    ensures s.Valid() && Moves(o, old(s.TheWorld()), s.TheWorld()) && !IsSilent(o)
  {
    match c {
      case AddEntity(id, fails) => var _, out := s.CreateEntity(id, fails); o := out;
      case DropEntity(id, fails) => var _, out := s.DeleteEntity(id, fails); o := out;
      case AddObservation(id, assetId, fails) => var _, out := s.CreateObservation(id, assetId, fails); o := out;
      case AddTask(id, assetId, pin, fails) => var _, out := s.CreateTask(id, assetId, pin, fails); o := out;
      case DropTask(id, fails) => var _, out := s.DeleteTask(id, fails); o := out;
      case AddObject(id, ownerType, ownerId, f) => var _, out := s.CreateObject(id, ownerType, ownerId, f); o := out;
    }
  }

  method Dispatch(s: Store, c: Call) returns (ghost o: Outcome)
    requires s.Valid()
    modifies s`db, s`committed, s.files
    ensures s.Valid() && Moves(o, old(s.TheWorld()), s.TheWorld())
    ensures IsSilent(o) <==> old(EndsSilently(s, c))
  {
    if IsFileCall(c) {
      o := PerformOnFiles(s, c);
    } else {
      o := PerformOnRecords(s, c);
    }
  }

  /** Any call. On a store that is ready and whose media agree it leaves them so exactly when it does not
      end silently. */
  method Perform(s: Store, c: Call) returns (ghost o: Outcome)
    requires s.Valid()
    modifies s`db, s`committed, s.files
    ensures s.Valid() && Moves(o, old(s.TheWorld()), s.TheWorld())
    ensures IsSilent(o) <==> old(EndsSilently(s, c))
    ensures old(s.files.healthy && Settled(s.TheWorld())) ==> (Settled(s.TheWorld()) <==> !old(EndsSilently(s, c)))
  {
    ghost var w := s.TheWorld();
    o := Dispatch(s, c);
    if w.healthy && Settled(w) {
      SettledIff(o, w, s.TheWorld());
    }
  }

  method PerformInRun(s: Store, c: Call) returns (ghost o: Outcome)
    requires s.Valid()
    modifies s`db, s`committed, s.files
    ensures s.Valid() && Moves(o, old(s.TheWorld()), s.TheWorld())
    ensures IsSilent(o) ==> MayEndSilently(c)
  {
    o := Dispatch(s, c);
  }

  lemma OneMoreCall(worlds: seq<World>, outcomes: seq<Outcome>, w: World, o: Outcome)
    requires IsRun(worlds, outcomes) && Moves(o, worlds[|outcomes|], w)
    ensures IsRun(worlds + [w], outcomes + [o])
  {
    var n := |outcomes|;
    forall j | 0 <= j <= n ensures StepAt(worlds + [w], outcomes + [o], j) {
      assert j < n ==> StepAt(worlds, outcomes, j);
    }
  }

  /** Any sequence of calls, each failing where its faults say: committed content survives, a dropped
      flag stays down, and without the silent faults a ready store is one whose media agree. */
  method PerformAll(s: Store, calls: seq<Call>)
    requires s.Valid() && Settled(s.TheWorld())
    modifies s`db, s`committed, s.files
    ensures s.Valid()
    ensures s.files.healthy ==> old(s.files.healthy)
    ensures (forall i | 0 <= i < |calls| :: !MayEndSilently(calls[i])) ==> Settled(s.TheWorld())
  {
    ghost var worlds, outcomes := [s.TheWorld()], [];
    for i := 0 to |calls|
      invariant s.Valid() && |worlds| == i + 1 && IsRun(worlds, outcomes)
      invariant worlds[0] == old(s.TheWorld()) && worlds[i] == s.TheWorld()
      invariant forall j | 0 <= j < i :: IsSilent(outcomes[j]) ==> MayEndSilently(calls[j])
    {
      ghost var o := PerformInRun(s, calls[i]);
      OneMoreCall(worlds, outcomes, s.TheWorld(), o);
      worlds, outcomes := worlds + [s.TheWorld()], outcomes + [o];
    }
    EveryRun(worlds, outcomes, |calls|);
  }
}
