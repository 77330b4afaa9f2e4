/** The upload handler's walk over a multipart body, and who owns the staged file at each point. */
module UploadHandler {
  import opened FileProtocol
  import opened Json
  import opened ObjectFiles
  import opened Paths
  import opened PostgresStore

  const FORM_FIELD_MAX: nat := 64 * 1024

  datatype Part = Part(name: string, body: Source)

  /** A multipart body: its parts, and whether reading the one after the last fails. */
  datatype Multipart = Multipart(parts: seq<Part>, truncated: bool)

  /** `stage` is for the handler's own staging, `upload` for the store's call. */
  datatype HandlerFaults = HandlerFaults(stage: StageFaults, upload: UploadFaults, remove: bool)

  predicate RemovalsWork(f: HandlerFaults) {
    !f.stage.remove && !f.upload.stage.remove && !f.upload.remove && !f.remove
  }

  /** The one body shape that can succeed: part i is the file, only the two form fields follow it. */
  predicate FileIsAt(parts: seq<Part>, i: int) {
    && 0 <= i < |parts| && parts[i].name == "file"
    && (forall j | 0 <= j < |parts| && j != i :: parts[j].name != "file")
    && (forall j | 0 <= j < |parts| :: parts[j].name != "file_id")
    && (forall j | i < j < |parts| :: parts[j].name in {"usage_hint", "content_type"})
  }

  predicate IsFormField(part: Part) {
    part.name in {"usage_hint", "content_type"}
  }

  predicate FieldReads(part: Part) {
    !part.body.fails && |Content(part.body)| <= FORM_FIELD_MAX
  }

  /** The text of the last content_type part. */
  function OverrideOf(parts: seq<Part>): Bytes {
    if parts == [] then []
    else
      var last := parts[|parts| - 1];
      if last.name == "content_type" then Content(last.body) else OverrideOf(parts[..|parts| - 1])
  }

  /** `readMultipartFormFieldString`, up to trimming. */
  method ReadFormField(body: Source) returns (r: Result<Bytes>)
    ensures r.Ok? <==> !body.fails && |Content(body)| <= FORM_FIELD_MAX
    ensures r.Ok? ==> r.value == Content(body)
    ensures r.Err? ==> !r.error.StorageUnavailable?
  {
    var read, ok := Copy(body, FORM_FIELD_MAX + 1, FORM_FIELD_MAX + 1);
    if !ok {
      return Err(IoError);
    }
    if |read| > FORM_FIELD_MAX {
      return Err(PayloadTooLarge);
    }
    return Ok(read);
  }

  /** `uploadErrorRetainsPreStagedPath`. */
  predicate RetainsStaged(e: Error, staged: StagePath) {
    e.StorageUnavailable? && e.retained == Some(staged)
  }

  /** What the part loop leaves for the upload. */
  datatype Form = Form(staged: Option<StagePath>, size: nat, usageHint: Bytes, override: Bytes)

  /** The staged file is the handler's, new, and holds the file part; nothing else has changed. */
  ghost predicate Owns(form: Form, before: map<StagePath, Bytes>, now: map<StagePath, Bytes>, parts: seq<Part>, n: nat)
    requires n <= |parts|
  {
    && form.override == OverrideOf(parts[..n])
    && match form.staged
       case None => now == before && forall j | 0 <= j < n :: parts[j].name !in {"file", "file_id"}
       case Some(p) =>
         && p !in before
         && exists i :: FileIsAt(parts[..n], i) && now == before[p := Content(parts[i].body)]
                        && form.size == |Content(parts[i].body)|
  }

  lemma FormFieldKeepsOwnership(form: Form, form': Form, before: map<StagePath, Bytes>, now: map<StagePath, Bytes>,
                                parts: seq<Part>, n: nat)
    requires n < |parts| && IsFormField(parts[n])
    requires Owns(form, before, now, parts, n) && form'.staged == form.staged && form'.size == form.size
    requires form'.override == if parts[n].name == "content_type" then Content(parts[n].body) else form.override
    ensures Owns(form', before, now, parts, n + 1)
  {
    assert parts[..n + 1] == parts[..n] + [parts[n]];
    assert parts[..n + 1][..n] == parts[..n];
    if form.staged.Some? {
      var i :| FileIsAt(parts[..n], i) && now == before[form.staged.value := Content(parts[i].body)]
               && form.size == |Content(parts[i].body)|;
      assert FileIsAt(parts[..n + 1], i);
    }
  }

  class Handler {
    const store: Store
    const maxFile: nat

    constructor (store: Store, maxFile: nat)
      ensures this.store == store && this.maxFile == maxFile
    {
      this.store, this.maxFile := store, maxFile;
    }

    /** What one part needs, with or without a staged file before it. */
    predicate PartGoesThrough(key: Key, part: Part, staged: bool, f: HandlerFaults) {
      match part.name
      case "file_id" => false
      case "usage_hint" => FieldReads(part)
      case "content_type" => FieldReads(part)
      case "file" => !staged && store.files.StageGoesThrough(key.objectId, key.fileId, part.body, maxFile, f.stage)
      case _ => !staged
    }

    /** What the whole body needs: one shape, readable form fields, a file that can be staged. */
    ghost predicate BodyGoesThrough(key: Key, body: Multipart, f: HandlerFaults) {
      && !body.truncated
      && (forall j | 0 <= j < |body.parts| && IsFormField(body.parts[j]) :: FieldReads(body.parts[j]))
      && exists i :: FileIsAt(body.parts, i)
                     && store.files.StageGoesThrough(key.objectId, key.fileId, body.parts[i].body, maxFile, f.stage)
    }

    /** `cleanupStage`. */
    method CleanupStage(form: Form, removeFails: bool)
      modifies store.files`staging
      ensures form.staged.None? ==> store.files.staging == old(store.files.staging)
      ensures form.staged.Some? && !removeFails ==> store.files.staging == old(store.files.staging) - {form.staged.value}
      ensures store.files.staging.Keys <= old(store.files.staging).Keys
    {
      if form.staged.Some? {
        store.files.CleanupStagedPath(form.staged.value, removeFails);
      }
    }

    /** The file part: staged, unless one has been already. */
    method TakeFile(key: Key, parts: seq<Part>, n: nat, form: Form, f: HandlerFaults, ghost before: map<StagePath, Bytes>)
      returns (r: Result<Form>)
      requires n < |parts| && store.files.FreshNames() && Owns(form, before, store.files.staging, parts, n)
      requires parts[n].name == "file"
      modifies store.files`staging, store.files`nextTemp
      ensures store.files.FreshNames()
      ensures r.Ok? <==> PartGoesThrough(key, parts[n], form.staged.Some?, f)
      ensures r.Ok? ==> Owns(r.value, before, store.files.staging, parts, n + 1)
      ensures r.Err? && RemovalsWork(f) ==> store.files.staging == before
      ensures r.Err? ==> !r.error.StorageUnavailable?
    {
      if form.staged.Some? {
        CleanupStage(form, f.remove);
        return Err(ValidationFailed("file"));
      }
      var staged := store.files.Stage(key.objectId, key.fileId, parts[n].body, maxFile, f.stage);
      if staged.Err? {
        return Err(if staged.error.StorageUnavailable? then IoError else staged.error);
      }
      r := Ok(form.(staged := Some(staged.value.0), size := staged.value.1));
      assert parts[..n + 1] == parts[..n] + [parts[n]] && FileIsAt(parts[..n + 1], n);
    }

    /** One part of the loop. On an error the staged file is gone again. */
    method TakePart(key: Key, parts: seq<Part>, n: nat, form: Form, f: HandlerFaults, ghost before: map<StagePath, Bytes>)
      returns (r: Result<Form>)
      requires n < |parts| && store.files.FreshNames() && Owns(form, before, store.files.staging, parts, n)
      modifies store.files`staging, store.files`nextTemp
      ensures store.files.FreshNames()
      ensures r.Ok? <==> PartGoesThrough(key, parts[n], form.staged.Some?, f)
      ensures r.Ok? ==> Owns(r.value, before, store.files.staging, parts, n + 1)
      ensures r.Err? && RemovalsWork(f) ==> store.files.staging == before
      ensures r.Err? ==> !r.error.StorageUnavailable?
    {
      var part := parts[n];
      assert parts[..n + 1] == parts[..n] + [part] && parts[..n + 1][..n] == parts[..n];
      match part.name {
        case "file_id" =>
          CleanupStage(form, f.remove);
          return Err(ValidationFailed("multipart"));
        case "usage_hint" =>
          var text := ReadFormField(part.body);
          if text.Err? {
            CleanupStage(form, f.remove);
            return Err(text.error);
          }
          r := Ok(form.(usageHint := text.value));
          FormFieldKeepsOwnership(form, r.value, before, store.files.staging, parts, n);
        case "content_type" =>
          var text := ReadFormField(part.body);
          if text.Err? {
            CleanupStage(form, f.remove);
            return Err(text.error);
          }
          r := Ok(form.(override := text.value));
          FormFieldKeepsOwnership(form, r.value, before, store.files.staging, parts, n);
        case "file" =>
          r := TakeFile(key, parts, n, form, f, before);
        case _ =>
          if form.staged.Some? {
            CleanupStage(form, f.remove);
            return Err(ValidationFailed("multipart"));
          }
          r := Ok(form);
      }
    }

    /** A part that does not go through where it stands spoils the whole body. */
    lemma PartSpoilsBody(key: Key, body: Multipart, n: nat, form: Form, f: HandlerFaults,
                         before: map<StagePath, Bytes>, now: map<StagePath, Bytes>)
      requires n < |body.parts| && Owns(form, before, now, body.parts, n)
      requires !PartGoesThrough(key, body.parts[n], form.staged.Some?, f)
      ensures !BodyGoesThrough(key, body, f)
    {
      var parts := body.parts;
      if i :| FileIsAt(parts, i) && form.staged.Some? {
        var j :| FileIsAt(parts[..n], j);
        assert parts[j] == parts[..n][j] && j == i;
      }
    }

    /** Parts that all went through, with a file among them, make a body that does. */
    lemma PartsMakeBody(key: Key, body: Multipart, form: Form, f: HandlerFaults,
                        before: map<StagePath, Bytes>, now: map<StagePath, Bytes>)
      requires Owns(form, before, now, body.parts, |body.parts|)
      requires forall j | 0 <= j < |body.parts| ::
                 PartGoesThrough(key, body.parts[j], true, f) || PartGoesThrough(key, body.parts[j], false, f)
      ensures BodyGoesThrough(key, body, f) <==> !body.truncated && form.staged.Some?
    {
      assert body.parts[..|body.parts|] == body.parts;
      if form.staged.Some? {
        var i :| FileIsAt(body.parts, i) && form.size == |Content(body.parts[i].body)|;
        assert store.files.StageGoesThrough(key.objectId, key.fileId, body.parts[i].body, maxFile, f.stage);
      }
    }

    /** The part loop, and the end of the body. */
    method TakeParts(key: Key, body: Multipart, f: HandlerFaults) returns (r: Result<Form>)
      requires store.files.FreshNames()
      modifies store.files`staging, store.files`nextTemp
      ensures store.files.FreshNames()
      ensures r.Ok? <==> BodyGoesThrough(key, body, f)
      ensures r.Ok? ==>
                r.value.staged.Some? && Owns(r.value, old(store.files.staging), store.files.staging, body.parts, |body.parts|)
      ensures r.Err? && RemovalsWork(f) ==> store.files.staging == old(store.files.staging)
      ensures r.Err? ==> !r.error.StorageUnavailable?
    {
      ghost var before := store.files.staging;
      var form := Form(None, 0, [], []);
      for n := 0 to |body.parts|
        invariant store.files.FreshNames() && Owns(form, before, store.files.staging, body.parts, n)
        invariant forall j | 0 <= j < n ::
          PartGoesThrough(key, body.parts[j], true, f) || PartGoesThrough(key, body.parts[j], false, f)
      {
        ghost var now := store.files.staging;
        var taken := TakePart(key, body.parts, n, form, f, before);
        if taken.Err? {
          PartSpoilsBody(key, body, n, form, f, before, now);
          return Err(taken.error);
        }
        form := taken.value;
      }
      PartsMakeBody(key, body, form, f, before, store.files.staging);
      if body.truncated {
        CleanupStage(form, f.remove);
        return Err(ValidationFailed("multipart"));
      }
      if form.staged.None? {
        return Err(ValidationFailed("file"));
      }
      return Ok(form);
    }

    /** What the store's call needs, once the file is staged, for its row to be committed. */
    predicate StoreCommits(key: Key, size: nat, f: UploadFaults)
      reads store
    {
      && key.objectId in store.db.objects && key !in store.db.files && TxGoesThrough(f.tx)
      && size <= ChooseLimit(maxFile, store.maxUpload) && !f.lstat && !f.resolve
    }

    /** What the whole request needs for its row to be committed. */
    ghost predicate RequestCommits(key: Key, body: Multipart, contentTypeOk: Bytes -> bool, f: HandlerFaults)
      reads store
    {
      && BodyGoesThrough(key, body, f) && contentTypeOk(OverrideOf(body.parts))
      && exists i :: FileIsAt(body.parts, i) && StoreCommits(key, |Content(body.parts[i].body)|, f.upload)
    }

    /** The call that takes the staged file over. */
    method CallStore(key: Key, staged: StagePath, size: nat, f: HandlerFaults,
                     ghost before: map<StagePath, Bytes>, ghost content: Bytes)
      returns (r: Result<FileRow>, ghost o: Outcome)
      requires store.Valid() && IsValidId(key.objectId) && IsValidId(key.fileId)
      requires staged !in before && store.files.staging == before[staged := content] && size == |content| > 0
      modifies store`db, store`committed, store.files
      ensures store.Valid() && Moves(o, old(store.TheWorld()), store.TheWorld())
      ensures store.EndsAs(key, content, r, o)
      ensures o.Uploaded? <==> old(StoreCommits(key, size, f.upload)) && store.PromotionWorks(key, f.upload.promote)
      ensures o.PromotionFailed? <==> old(StoreCommits(key, size, f.upload)) && !store.PromotionWorks(key, f.upload.promote)
      ensures o.PromotionFailed? ==> !store.files.healthy && r.error.retained == Some(staged)
      ensures o.Uploaded? ==> store.files.staging == before
      ensures o.PromotionFailed? ==> store.files.staging == before[staged := content]
      ensures RemovalsWork(f) && o.Nothing? ==> store.files.staging - {staged} == before
    {
      var input := UploadInput(key, Source([], false), maxFile, Some(PreStaged(staged, size)));
      r, o := store.CreateObjectFile(input, f.upload);
    }

    /** The end of the handler: the call that takes the staged file over, and the clean-up if it failed
        without keeping the file for recovery. */
    method Submit(key: Key, staged: StagePath, size: nat, f: HandlerFaults,
                  ghost before: map<StagePath, Bytes>, ghost content: Bytes)
      returns (r: Result<FileRow>, ghost o: Outcome)
      requires store.Valid() && IsValidId(key.objectId) && IsValidId(key.fileId)
      requires staged !in before && store.files.staging == before[staged := content] && size == |content| > 0
      modifies store`db, store`committed, store.files
      ensures store.Valid() && Moves(o, old(store.TheWorld()), store.TheWorld())
      ensures o.Uploaded? || o.PromotionFailed? || o.Nothing?
      ensures r.Ok? <==> o.Uploaded?
      ensures o.Uploaded? <==> old(StoreCommits(key, size, f.upload)) && store.PromotionWorks(key, f.upload.promote)
      ensures o.PromotionFailed? <==> old(StoreCommits(key, size, f.upload)) && !store.PromotionWorks(key, f.upload.promote)
      ensures o.Uploaded? ==> o == Uploaded(key, content)
      ensures RemovalsWork(f) && !o.PromotionFailed? ==> store.files.staging == before
      ensures o.PromotionFailed? ==>
                !store.files.healthy && r.error.StorageUnavailable? && store.files.staging == before[staged := content]
    {
      r, o := CallStore(key, staged, size, f, before, content);
      if r.Err? && !RetainsStaged(r.error, staged) {
        store.files.CleanupStagedPath(staged, f.remove);
      }
    }

    /** `handleUploadObjectFile`. For every list of parts and every fault, removals assumed to work: when
        it returns, the staging area is as it was, unless the metadata was committed and promotion then
        failed; then exactly the staged file body is left over, and the store no longer reports ready. */
    method HandleUpload(key: Key, body: Multipart, contentTypeOk: Bytes -> bool, f: HandlerFaults)
      returns (r: Result<FileRow>, ghost o: Outcome)
      requires store.Valid()
      modifies store`db, store`committed, store.files
      ensures store.Valid() && Moves(o, old(store.TheWorld()), store.TheWorld())
      ensures o.Uploaded? || o.PromotionFailed? || o.Nothing?
      ensures r.Ok? <==> o.Uploaded?
      ensures o.Uploaded? <==>
                old(RequestCommits(key, body, contentTypeOk, f)) && store.PromotionWorks(key, f.upload.promote)
      ensures o.PromotionFailed? <==>
                old(RequestCommits(key, body, contentTypeOk, f)) && !store.PromotionWorks(key, f.upload.promote)
      ensures o.Uploaded? ==>
                exists i :: FileIsAt(body.parts, i) && !body.truncated && o == Uploaded(key, Content(body.parts[i].body))
      ensures RemovalsWork(f) && !o.PromotionFailed? ==> store.files.staging == old(store.files.staging)
      ensures o.PromotionFailed? ==>
                && !store.files.healthy && r.error.StorageUnavailable?
                && exists p, i :: p !in old(store.files.staging) && FileIsAt(body.parts, i)
                                  && store.files.staging == old(store.files.staging)[p := Content(body.parts[i].body)]
    {
      o := Nothing;
      if !IsValidId(key.objectId) || !IsValidId(key.fileId) {
        return Err(ValidationFailed("path")), o;
      }
      var taken := TakeParts(key, body, f);
      if taken.Err? {
        return Err(taken.error), o;
      }
      assert body.parts[..|body.parts|] == body.parts;
      var form := taken.value;
      var staged := form.staged.value;
      ghost var i :| FileIsAt(body.parts, i) && form.size == |Content(body.parts[i].body)|
                     && store.files.staging == old(store.files.staging)[staged := Content(body.parts[i].body)];
      assert forall j | FileIsAt(body.parts, j) :: j == i;
      if !contentTypeOk(form.override) {
        CleanupStage(form, f.remove);
        return Err(ValidationFailed("content_type")), o;
      }
      r, o := Submit(key, staged, form.size, f, old(store.files.staging), Content(body.parts[i].body));
    }
  }
}
