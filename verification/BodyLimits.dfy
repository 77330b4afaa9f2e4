/** Uploads and appends with nothing failing go through exactly for bodies within the limit, whichever of the two
    limits is set. */
module BodyLimits {
  import opened FileProtocol
  import opened Json
  import opened ObjectFiles
  import opened Paths
  import opened PostgresStore
  import opened UploadHandler

  const NO_TX_FAULTS: TxFaults := TxFaults(false, false, false, false, false, false)

  /** Faultless steps on a disk with room for n bytes. */
  function UploadWell(n: nat): UploadFaults {
    UploadFaults(false, false, StageFaults(false, false, n, false, false), NO_TX_FAULTS, PromoteFaults(false, false), false)
  }

  function AppendWell(n: nat): AppendCallFaults {
    AppendCallFaults(NO_TX_FAULTS, AppendFaults(false, false, false, false, n, false, false, false), false)
  }

  /** At least one byte, and within the limit. */
  ghost predicate Fits(n: nat, requested: int, configured: int) {
    exists limit :: IsLimit(limit, requested, configured) && 1 <= n <= limit
  }

  lemma FitsIff(n: nat, requested: int, configured: int)
    ensures Fits(n, requested, configured) <==> 1 <= n <= ChooseLimit(requested, configured)
  {
    assert IsLimit(ChooseLimit(requested, configured), requested, configured);
  }

  /** A plain new key of an object that is there. */
  predicate IsFree(s: Store, key: Key)
    reads s
  {
    && IsValidId(key.objectId) && IsValidId(key.fileId) && !EndsWithDots(key.objectId)
    && key.objectId in s.db.objects && key !in s.db.files
  }

  /** An upload in which nothing fails, in any chunking, on a disk with room for it. */
  method UploadAtEase(s: Store, key: Key, src: Source, maxBytes: int, room: nat)
    returns (r: Result<FileRow>, ghost o: Outcome)
    requires s.Valid() && IsCleanRoot(s.files.root) && IsFree(s, key) && !src.fails && |Content(src)| <= room
    modifies s`db, s`committed, s.files
    ensures s.Valid() && Moves(o, old(s.TheWorld()), s.TheWorld())
    ensures r.Ok? <==> Fits(|Content(src)|, maxBytes, s.maxUpload)
    ensures o == if r.Ok? then Uploaded(key, Content(src)) else Nothing
  {
    AbsolutePathIff(s.files.root, key.objectId, key.fileId);
    FitsIff(|Content(src)|, maxBytes, s.maxUpload);
    r, o := s.CreateObjectFile(UploadInput(key, src, maxBytes, None), UploadWell(room));
  }

  /** An upload of a staged file in which nothing fails. */
  method UploadStagedAtEase(s: Store, key: Key, staged: StagePath, maxBytes: int)
    returns (r: Result<FileRow>, ghost o: Outcome)
    requires s.Valid() && IsCleanRoot(s.files.root) && IsFree(s, key) && staged in s.files.staging
    modifies s`db, s`committed, s.files
    ensures s.Valid() && Moves(o, old(s.TheWorld()), s.TheWorld())
    ensures r.Ok? <==> Fits(|old(s.files.staging)[staged]|, maxBytes, s.maxUpload)
    ensures o == if r.Ok? then Uploaded(key, old(s.files.staging)[staged]) else Nothing
    ensures s.files.staging == old(s.files.staging) - {staged}
  {
    var size := |s.files.staging[staged]|;
    AbsolutePathIff(s.files.root, key.objectId, key.fileId);
    FitsIff(size, maxBytes, s.maxUpload);
    var input := UploadInput(key, Source([], false), maxBytes, Some(PreStaged(staged, size)));
    r, o := s.CreateObjectFile(input, UploadWell(0));
  }

  /** An append to a file that is there, in which nothing fails. */
  method AppendAtEase(s: Store, key: Key, src: Source, maxBytes: int, room: nat)
    returns (r: Result<FileRow>, ghost o: Outcome)
    requires s.Valid() && key in s.db.files && s.files.Resolves(s.db.files[key].path)
    requires s.db.files[key].path in s.files.objects && !src.fails && |Content(src)| <= room
    modifies s`db, s`committed, s.files
    ensures s.Valid() && Moves(o, old(s.TheWorld()), s.TheWorld())
    ensures r.Ok? <==> Fits(|Content(src)|, maxBytes, s.maxUpload)
    ensures r.Ok? <==> o.Appended?
    ensures r.Ok? ==> o == Appended(key, Content(src))
    ensures r.Err? ==> o.Nothing?
  {
    FitsIff(|Content(src)|, maxBytes, s.maxUpload);
    r, o := s.AppendObjectFile(key, src, maxBytes, AppendWell(room));
  }

  /** A request in which nothing fails, with its one file part at i. */
  method RequestAtEase(h: Handler, key: Key, body: Multipart, contentTypeOk: Bytes -> bool, i: nat, room: nat)
    returns (r: Result<FileRow>, ghost o: Outcome)
    requires h.store.Valid() && IsCleanRoot(h.store.files.root) && IsFree(h.store, key)
    requires FileIsAt(body.parts, i) && !body.truncated && contentTypeOk(OverrideOf(body.parts))
    requires !body.parts[i].body.fails && |Content(body.parts[i].body)| <= room
    requires forall j | 0 <= j < |body.parts| && IsFormField(body.parts[j]) :: FieldReads(body.parts[j])
    modifies h.store`db, h.store`committed, h.store.files
    ensures h.store.Valid() && Moves(o, old(h.store.TheWorld()), h.store.TheWorld())
    ensures r.Ok? <==>
            var n := |Content(body.parts[i].body)|; n <= h.maxFile && Fits(n, h.maxFile, h.store.maxUpload)
    ensures r.Ok? ==> o == Uploaded(key, Content(body.parts[i].body))
    ensures r.Err? ==> o.Nothing?
    ensures h.store.files.staging == old(h.store.files.staging)
  {
    var n := |Content(body.parts[i].body)|;
    AbsolutePathIff(h.store.files.root, key.objectId, key.fileId);
    FitsIff(n, h.maxFile, h.store.maxUpload);
    assert forall j | FileIsAt(body.parts, j) :: j == i;
    r, o := h.HandleUpload(key, body, contentTypeOk, HandlerFaults(UploadWell(room).stage, UploadWell(room), false));
  }
}
