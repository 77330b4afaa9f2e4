/** Real calls that reach the ends of an append a caller would not expect: on a new store under any root, with
    any bodies. */
module AppendWitnesses {
  import opened BodyLimits
  import opened FileContents
  import opened FileProtocol
  import opened ObjectFiles
  import opened Paths
  import opened PostgresStore

  function OnlyCloseFails(n: nat): AppendCallFaults {
    AppendWell(n).(append := AppendWell(n).append.(close := true))
  }

  function OnlyRereadFails(n: nat): AppendCallFaults {
    AppendWell(n).(tx := NO_TX_FAULTS.(reread := true))
  }

  function BodyOf(bytes: Bytes): (src: Source)
    ensures Content(src) == bytes && !src.fails
  {
    assert Flatten([bytes][1..]) == [];
    Source([bytes], false)
  }

  const KEY: Key := Key("o", "o")

  /** The file can be appended to. */
  ghost predicate IsOpenTo(s: Store)
    reads s, s.files
  {
    && s.Valid() && KEY in s.db.files
    && s.files.Resolves(s.db.files[KEY].path) && s.db.files[KEY].path in s.files.objects
  }

  method NewStoreWithObject(root: string, maxUpload: int) returns (s: Store)
    ensures fresh(s) && fresh(s.files) && s.Valid() && s.files.root == root && s.maxUpload == maxUpload && IsFree(s, KEY)
    ensures s.files.healthy && Settled(s.TheWorld())
  {
    assert "o"[0] != '.';
    var files := new FileStore(root);
    s := new Store(files, maxUpload);
    ghost var w := s.TheWorld();
    var _, o := s.CreateObject(KEY.objectId, "system", "active_command_catalog", NO_TX_FAULTS);
    SettledIff(o, w, s.TheWorld());
  }

  /** A new store with one promoted file, whatever the limits. */
  method NewStoreWithFile(root: string, maxUpload: int, maxBytes: int, first: Bytes) returns (s: Store)
    requires IsCleanRoot(root) && Fits(|first|, maxBytes, maxUpload)
    ensures fresh(s) && fresh(s.files) && IsOpenTo(s) && s.maxUpload == maxUpload
    ensures s.files.healthy && Settled(s.TheWorld()) && KEY in s.committed && s.committed[KEY] == first
  {
    s := NewStoreWithObject(root, maxUpload);
    AbsolutePathIff(root, KEY.objectId, KEY.fileId);
    ghost var w := s.TheWorld();
    var _, o := UploadAtEase(s, KEY, BodyOf(first), maxBytes, |first|);
    SettledIff(o, w, s.TheWorld());
  }

  method AppendBody(s: Store, maxBytes: int, body: Bytes, rereadFails: bool) returns (r: Result<FileRow>, ghost o: Outcome)
    requires IsOpenTo(s) && Fits(|body|, maxBytes, s.maxUpload)
    modifies s`db, s`committed, s.files
    ensures s.Valid() && Moves(o, old(s.TheWorld()), s.TheWorld()) && o == Appended(KEY, body)
    ensures r.Err? <==> rereadFails
  {
    FitsIff(|body|, maxBytes, s.maxUpload);
    var f := if rereadFails then OnlyRereadFails(|body|) else AppendWell(|body|);
    r, o := s.AppendObjectFile(KEY, BodyOf(body), maxBytes, f);
  }

  method AppendWithFailingClose(s: Store, maxBytes: int, body: Bytes) returns (r: Result<FileRow>, ghost o: Outcome)
    requires IsOpenTo(s) && Fits(|body|, maxBytes, s.maxUpload)
    modifies s`db, s`committed, s.files
    ensures IsOpenTo(s) && Moves(o, old(s.TheWorld()), s.TheWorld()) && o == Stranded(KEY, body, false)
    ensures r.Err?
  {
    FitsIff(|body|, maxBytes, s.maxUpload);
    r, o := s.AppendObjectFile(KEY, BodyOf(body), maxBytes, OnlyCloseFails(|body|));
  }

  /** An upload, then an append whose only fault is the close: the store reports ready while disk and rows
      disagree. */
  method SilentAppend(root: string, maxUpload: int, maxBytes: int, first: Bytes, refused: Bytes)
    returns (s: Store, r: Result<FileRow>)
    requires IsCleanRoot(root) && Fits(|first|, maxBytes, maxUpload) && Fits(|refused|, maxBytes, maxUpload)
    ensures fresh(s) && s.Valid() && s.files.healthy && r.Err? && !Agrees(s.TheWorld())
  {
    s := NewStoreWithFile(root, maxUpload, maxBytes, first);
    ghost var w, o := s.TheWorld(), Nothing;
    r, o := AppendWithFailingClose(s, maxBytes, refused);
    SilenceBreaksAgreement(w, s.TheWorld(), o);
  }

  /** The next append then goes through, and commits the refused bytes with its own. */
  method RefusedBytesAreCommitted(root: string, maxUpload: int, maxBytes: int, first: Bytes, refused: Bytes, next: Bytes)
    returns (s: Store, r1: Result<FileRow>, r2: Result<FileRow>)
    requires IsCleanRoot(root) && Fits(|first|, maxBytes, maxUpload)
    requires Fits(|refused|, maxBytes, maxUpload) && Fits(|next|, maxBytes, maxUpload)
    ensures fresh(s) && s.Valid() && s.files.healthy && Agrees(s.TheWorld()) && r1.Err? && r2.Ok?
    ensures KEY in s.committed && s.committed[KEY] == first + refused + next
  {
    s := NewStoreWithFile(root, maxUpload, maxBytes, first);
    ghost var w, o1, o2 := s.TheWorld(), Nothing, Nothing;
    r1, o1 := AppendWithFailingClose(s, maxBytes, refused);
    ghost var w1 := s.TheWorld();
    r2, o2 := AppendBody(s, maxBytes, next, false);
    RefusedBytesAreAdopted(w, w1, s.TheWorld(), KEY, refused, next);
  }

  /** An upload, then an append in which only reading the row back fails: the caller gets an error, and the
      body is committed. */
  method FailedReread(root: string, maxUpload: int, maxBytes: int, first: Bytes, added: Bytes)
    returns (s: Store, r: Result<FileRow>)
    requires IsCleanRoot(root) && Fits(|first|, maxBytes, maxUpload) && Fits(|added|, maxBytes, maxUpload)
    ensures fresh(s) && s.Valid() && s.files.healthy && Agrees(s.TheWorld()) && r.Err?
    ensures KEY in s.committed && s.committed[KEY] == first + added
  {
    s := NewStoreWithFile(root, maxUpload, maxBytes, first);
    ghost var w, o := s.TheWorld(), Nothing;
    r, o := AppendBody(s, maxBytes, added, true);
    AppendToSettled(w, s.TheWorld(), KEY, added);
  }
}
