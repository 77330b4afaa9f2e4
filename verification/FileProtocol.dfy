/** What the write protocol may do to the two media, call by call, and what every run of such
    calls keeps. `PostgresStore` shows that the store's methods do nothing else. */
module FileProtocol {
  import opened Json
  import opened Paths
  import opened ObjectFiles

  datatype ObjectRow = ObjectRow(ownerType: string, ownerId: string)

  datatype FileRow = FileRow(path: string, size: nat)

  /** `pin` is the task's reference to its command catalog's object. */
  datatype TaskRow = TaskRow(assetId: string, pin: string)

  /** The committed tables, as far as keys and references go; observations map to their source asset. */
  datatype Tables = Tables(entities: set<string>, observations: map<string, string>, tasks: map<string, TaskRow>,
                           objects: map<string, ObjectRow>, files: map<Key, FileRow>)

  const EMPTY_TABLES: Tables := Tables({}, map[], map[], map[], map[])

  function Pinned(db: Tables): set<string> {
    set t | t in db.tasks :: db.tasks[t].pin
  }

  /** The other foreign keys. */
  ghost predicate ReferencesHold(db: Tables) {
    && (forall o | o in db.observations :: db.observations[o] in db.entities)
    && (forall t | t in db.tasks :: db.tasks[t].assetId in db.entities && db.tasks[t].pin in db.objects)
  }

  /** Both media, the health flag, and for every file whose promotion succeeded the bytes it held
      when its row was last committed. */
  datatype World = World(db: Tables, disk: map<string, Bytes>, healthy: bool, committed: map<Key, Bytes>)

  /** The object_files constraints: the foreign key, and paths derived from the primary key. */
  ghost predicate Consistent(db: Tables) {
    forall k | k in db.files ::
      k.objectId in db.objects && LogicalPath(k.objectId, k.fileId) == Some(db.files[k].path)
  }

  ghost function PathsOf(db: Tables, keys: set<Key>): set<string> {
    set k | k in keys && k in db.files :: db.files[k].path
  }

  ghost predicate IsNamed(db: Tables, path: string) {
    exists k :: k in db.files && db.files[k].path == path
  }

  datatype Outcome =
    | Nothing
    | Latched
    | Uploaded(key: Key, bytes: Bytes)
    | PromotionFailed(key: Key, size: nat)
    | Appended(key: Key, chunk: Bytes)
    | Stranded(key: Key, junk: Bytes, latched: bool)
    | Removed(keys: set<Key>, leftBehind: set<string>)
    | Recorded

  ghost predicate CanCreate(w: World, k: Key) {
    k !in w.db.files && k.objectId in w.db.objects && LogicalPath(k.objectId, k.fileId).Some?
  }

  ghost function WithRow(db: Tables, k: Key, size: nat): Tables
    requires LogicalPath(k.objectId, k.fileId).Some?
  {
    db.(files := db.files[k := FileRow(LogicalPath(k.objectId, k.fileId).value, size)])
  }

  /** The effect of one call on the world, for each way it can end. */
  ghost predicate Moves(o: Outcome, w: World, w': World) {
    match o
    case Nothing => w' == w
    case Latched => w' == w.(healthy := false)
    case Uploaded(k, bytes) =>
      && CanCreate(w, k)
      && var path := LogicalPath(k.objectId, k.fileId).value;
      && w' == w.(db := WithRow(w.db, k, |bytes|), disk := w.disk[path := bytes],
                  committed := w.committed[k := bytes])
    case PromotionFailed(k, size) =>
      CanCreate(w, k) && w' == w.(db := WithRow(w.db, k, size), healthy := false)
    case Appended(k, chunk) =>
      && k in w.db.files && w.db.files[k].path in w.disk
      && var path := w.db.files[k].path; var bytes := w.disk[path] + chunk;
      && w' == w.(db := w.db.(files := w.db.files[k := FileRow(path, |bytes|)]), disk := w.disk[path := bytes],
                  committed := if k in w.committed then w.committed[k := bytes] else w.committed)
    case Stranded(k, junk, latched) =>
      && k in w.db.files && w.db.files[k].path in w.disk
      && var path := w.db.files[k].path;
      && w' == w.(disk := w.disk[path := w.disk[path] + junk], healthy := w.healthy && !latched)
    case Removed(keys, leftBehind) =>
      && keys <= w.db.files.Keys && leftBehind <= PathsOf(w.db, keys)
      && w'.db.files == w.db.files - keys && Consistent(w'.db)
      && w'.db.entities == w.db.entities && w'.db.tasks == w.db.tasks
      && w'.disk == w.disk - (PathsOf(w.db, keys) - leftBehind)
      && w'.healthy == (w.healthy && leftBehind == {})
      && w'.committed == w.committed - keys
    case Recorded => w' == w.(db := w'.db) && w'.db.files == w.db.files && Consistent(w'.db)
  }

  /** Bytes on disk that no row speaks for, with the flag left up. */
  predicate IsSilent(o: Outcome) {
    o.Stranded? && !o.latched && o.junk != []
  }

  /** Promoted files keep their last committed content as a prefix, of the recorded length. */
  ghost predicate PrefixHeld(w: World) {
    forall k | k in w.committed ::
      && k in w.db.files && |w.committed[k]| == w.db.files[k].size
      && w.db.files[k].path in w.disk && w.committed[k] <= w.disk[w.db.files[k].path]
  }

  /** The files on disk are exactly those the rows name, each of the recorded length. */
  ghost predicate Agrees(w: World) {
    && (forall path | path in w.disk :: IsNamed(w.db, path))
    && forall k | k in w.db.files :: w.db.files[k].path in w.disk && |w.disk[w.db.files[k].path]| == w.db.files[k].size
  }

  /** As long as the store reports ready the media agree, and every row's file was promoted. */
  ghost predicate Settled(w: World) {
    w.healthy ==> Agrees(w) && w.committed.Keys == w.db.files.Keys
  }

  lemma PathsAreDistinct(db: Tables, k1: Key, k2: Key)
    requires Consistent(db) && k1 in db.files && k2 in db.files && db.files[k1].path == db.files[k2].path
    ensures k1 == k2
  {
    LogicalPathInjective(k1.objectId, k1.fileId, k2.objectId, k2.fileId);
  }

  lemma NewPathIsDistinct(db: Tables, k: Key)
    requires Consistent(db) && k !in db.files && LogicalPath(k.objectId, k.fileId).Some?
    ensures LogicalPath(k.objectId, k.fileId).value !in PathsOf(db, db.files.Keys)
  {
    forall k2 | k2 in db.files && db.files[k2].path == LogicalPath(k.objectId, k.fileId).value ensures false {
      LogicalPathInjective(k.objectId, k.fileId, k2.objectId, k2.fileId);
    }
  }

  lemma PathOfOne(db: Tables, k: Key)
    requires k in db.files
    ensures PathsOf(db, {k}) == {db.files[k].path}
  {
  }

  lemma ConsistencyIsKept(o: Outcome, w: World, w': World)
    requires Consistent(w.db) && Moves(o, w, w')
    ensures Consistent(w'.db)
  {
  }

  /** No outcome whatever, failed roll-backs and closes included, damages committed content. */
  lemma PrefixIsKept(o: Outcome, w: World, w': World)
    requires Consistent(w.db) && PrefixHeld(w) && Moves(o, w, w')
    ensures PrefixHeld(w')
  {
    ConsistencyIsKept(o, w, w');
    forall k | k in w'.committed
      ensures && k in w'.db.files && |w'.committed[k]| == w'.db.files[k].size
              && w'.db.files[k].path in w'.disk && w'.committed[k] <= w'.disk[w'.db.files[k].path]
    {
      match o
      case Uploaded(key, _) =>
        if k != key {
          NewPathIsDistinct(w.db, key);
        }
      case Appended(key, _) =>
        if k != key && w.db.files[k].path == w.db.files[key].path {
          PathsAreDistinct(w.db, k, key);
        }
      case Stranded(key, _, _) =>
        if k != key && w.db.files[k].path == w.db.files[key].path {
          PathsAreDistinct(w.db, k, key);
        }
      case Removed(keys, _) =>
        if k2 :| k2 in keys && w.db.files[k2].path == w.db.files[k].path {
          PathsAreDistinct(w.db, k, k2);
        }
      case _ =>
    }
  }

  lemma AppendOfOne(w: World, w': World, k: Key, chunk: Bytes)
    requires Consistent(w.db) && PrefixHeld(w) && k in w.db.files && w.db.files[k].path in w.disk
    requires var path := w.db.files[k].path; var bytes := w.disk[path] + chunk;
             w' == World(w.db.(files := w.db.files[k := FileRow(path, |bytes|)]), w.disk[path := bytes], w.healthy,
                         if k in w.committed then w.committed[k := bytes] else w.committed)
    ensures Moves(Appended(k, chunk), w, w') && Consistent(w'.db) && PrefixHeld(w')
  {
    assert Moves(Appended(k, chunk), w, w');
    PrefixIsKept(Appended(k, chunk), w, w');
  }

  /** The ways an append's database failure can end: bytes taken back, or left with the flag down. */
  lemma CompensationOfOne(w: World, w': World, k: Key, chunk: Bytes, truncated: bool, committing: bool)
    requires Consistent(w.db) && PrefixHeld(w) && k in w.db.files && w.db.files[k].path in w.disk
    requires var path := w.db.files[k].path;
             && w'.disk == (if truncated then w.disk else w.disk[path := w.disk[path] + chunk])
             && w' == w.(disk := w'.disk, healthy := w.healthy && truncated && !committing)
    ensures var o := if !truncated then Stranded(k, chunk, true) else if committing then Latched else Nothing;
            Moves(o, w, w') && !IsSilent(o)
    ensures PrefixHeld(w')
  {
    var o := if !truncated then Stranded(k, chunk, true) else if committing then Latched else Nothing;
    PrefixIsKept(o, w, w');
  }

  lemma PromotionOfOne(w: World, w': World, k: Key, bytes: Bytes, promoted: bool)
    requires Consistent(w.db) && ReferencesHold(w.db) && PrefixHeld(w) && CanCreate(w, k)
    requires w'.db == WithRow(w.db, k, |bytes|) && w'.healthy == (w.healthy && promoted)
    requires w'.disk == if promoted then w.disk[LogicalPath(k.objectId, k.fileId).value := bytes] else w.disk
    requires w'.committed == if promoted then w.committed[k := bytes] else w.committed
    ensures Moves(if promoted then Uploaded(k, bytes) else PromotionFailed(k, |bytes|), w, w')
    ensures Consistent(w'.db) && ReferencesHold(w'.db) && PrefixHeld(w')
  {
    PrefixIsKept(if promoted then Uploaded(k, bytes) else PromotionFailed(k, |bytes|), w, w');
  }

  lemma RemovalOfOne(w: World, w': World, k: Key, unlinked: bool)
    requires Consistent(w.db) && PrefixHeld(w) && k in w.db.files
    requires w'.db == w.db.(files := w.db.files - {k}) && w'.committed == w.committed - {k}
    requires w'.disk == if unlinked then w.disk - {w.db.files[k].path} else w.disk
    requires w'.healthy == (w.healthy && unlinked)
    ensures Moves(Removed({k}, if unlinked then {} else {w.db.files[k].path}), w, w')
    ensures Consistent(w'.db) && PrefixHeld(w')
  {
    var leftBehind := if unlinked then {} else {w.db.files[k].path};
    PathOfOne(w.db, k);
    assert {w.db.files[k].path} - leftBehind == if unlinked then {w.db.files[k].path} else {};
    assert Moves(Removed({k}, leftBehind), w, w');
    PrefixIsKept(Removed({k}, leftBehind), w, w');
  }

  lemma AgreementAfterUpload(w: World, w': World, k: Key, bytes: Bytes)
    requires Consistent(w.db) && Moves(Uploaded(k, bytes), w, w') && Agrees(w)
    ensures Agrees(w')
  {
    NewPathIsDistinct(w.db, k);
    forall path | path in w'.disk ensures IsNamed(w'.db, path) {
      if path == w'.db.files[k].path {
        assert k in w'.db.files && w'.db.files[k].path == path;
      } else {
        assert IsNamed(w.db, path);
        var k2 :| k2 in w.db.files && w.db.files[k2].path == path;
        assert k2 in w'.db.files && w'.db.files[k2].path == path;
      }
    }
    forall k2 | k2 in w'.db.files
      ensures w'.db.files[k2].path in w'.disk && |w'.disk[w'.db.files[k2].path]| == w'.db.files[k2].size
    {
      if k2 != k {
        assert w.db.files[k2].path in PathsOf(w.db, w.db.files.Keys);
      }
    }
  }

  lemma AgreementAfterAppend(w: World, w': World, k: Key, chunk: Bytes)
    requires Consistent(w.db) && Moves(Appended(k, chunk), w, w') && Agrees(w)
    ensures Agrees(w')
  {
    forall path | path in w'.disk ensures IsNamed(w'.db, path) {
      var k2 :| k2 in w.db.files && w.db.files[k2].path == path;
      assert w'.db.files[k2].path == path;
    }
    forall k2 | k2 in w'.db.files
      ensures w'.db.files[k2].path in w'.disk && |w'.disk[w'.db.files[k2].path]| == w'.db.files[k2].size
    {
      if k2 != k && w.db.files[k2].path == w.db.files[k].path {
        PathsAreDistinct(w.db, k2, k);
      }
    }
  }

  lemma AgreementAfterRemoval(w: World, w': World, keys: set<Key>)
    requires Consistent(w.db) && Moves(Removed(keys, {}), w, w') && Agrees(w)
    ensures Agrees(w')
  {
    forall path | path in w'.disk ensures IsNamed(w'.db, path) {
      var k :| k in w.db.files && w.db.files[k].path == path;
      assert k !in keys;
      assert w'.db.files[k].path == path;
    }
    forall k | k in w'.db.files
      ensures w'.db.files[k].path in w'.disk && |w'.disk[w'.db.files[k].path]| == w'.db.files[k].size
    {
      if k2 :| k2 in keys && w.db.files[k2].path == w.db.files[k].path {
        PathsAreDistinct(w.db, k, k2);
      }
    }
  }

  /** New or dropped records that leave the file rows alone. */
  lemma AgreementAfterRecording(w: World, w': World)
    requires Moves(Recorded, w, w') && Agrees(w)
    ensures Agrees(w')
  {
    forall path | path in w'.disk ensures IsNamed(w'.db, path) {
      var k :| k in w.db.files && w.db.files[k].path == path;
      assert w'.db.files[k].path == path;
    }
  }

  lemma SilenceBreaksAgreement(w: World, w': World, o: Outcome)
    requires Consistent(w.db) && Agrees(w) && Moves(o, w, w') && IsSilent(o)
    ensures !Agrees(w')
  {
    var path := w.db.files[o.key].path;
    assert |w'.disk[path]| == |w.disk[path]| + |o.junk|;
  }

  /** From a settled world, a call leaves one that is settled exactly when it did not end silently. */
  lemma SettledIff(o: Outcome, w: World, w': World)
    requires Consistent(w.db) && Settled(w) && w.healthy && Moves(o, w, w')
    ensures Settled(w') <==> !IsSilent(o)
  {
    match o
    case Uploaded(k, bytes) => AgreementAfterUpload(w, w', k, bytes);
    case Appended(k, chunk) => AgreementAfterAppend(w, w', k, chunk);
    case Stranded(k, junk, latched) =>
      if IsSilent(o) {
        SilenceBreaksAgreement(w, w', o);
      } else if !latched {
        assert w.disk[w.db.files[k].path] + junk == w.disk[w.db.files[k].path];
        assert w' == w;
      }
    case Recorded => AgreementAfterRecording(w, w');
    case Removed(keys, leftBehind) =>
      if leftBehind == {} {
        AgreementAfterRemoval(w, w', keys);
        assert w'.committed.Keys == w'.db.files.Keys;
      }
    case _ =>
  }

  /** One call, whatever it was. */
  lemma CallKeeps(o: Outcome, w: World, w': World)
    requires Moves(o, w, w') && Consistent(w.db) && PrefixHeld(w)
    ensures Consistent(w'.db) && PrefixHeld(w') && (w'.healthy ==> w.healthy)
    ensures Settled(w) && !IsSilent(o) ==> Settled(w')
  {
    ConsistencyIsKept(o, w, w');
    PrefixIsKept(o, w, w');
    if w.healthy && Settled(w) {
      SettledIff(o, w, w');
    }
  }

  /** A run: the worlds between calls, and how each call ended. */
  ghost predicate IsRun(worlds: seq<World>, outcomes: seq<Outcome>) {
    |worlds| == |outcomes| + 1 && forall i | 0 <= i < |outcomes| :: StepAt(worlds, outcomes, i)
  }

  ghost predicate StepAt(worlds: seq<World>, outcomes: seq<Outcome>, i: int)
    requires 0 <= i < |outcomes| < |worlds|
  {
    Moves(outcomes[i], worlds[i], worlds[i + 1])
  }

  /** Over any run: committed content survives, the flag is never raised again, and unless some
      call ended silently the media agree whenever the store still reports ready. */
  lemma {:induction false} EveryRun(worlds: seq<World>, outcomes: seq<Outcome>, n: nat)
    requires IsRun(worlds, outcomes) && n <= |outcomes|
    requires Consistent(worlds[0].db) && PrefixHeld(worlds[0]) && Settled(worlds[0])
    ensures Consistent(worlds[n].db) && PrefixHeld(worlds[n])
    ensures worlds[n].healthy ==> worlds[0].healthy
    ensures (forall i | 0 <= i < n :: !IsSilent(outcomes[i])) ==> Settled(worlds[n])
  {
    if n > 0 {
      EveryRun(worlds, outcomes, n - 1);
      assert StepAt(worlds, outcomes, n - 1);
      CallKeeps(outcomes[n - 1], worlds[n - 1], worlds[n]);
    }
  }
}
