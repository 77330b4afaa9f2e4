/** The stored copy of a command catalog: what `Materialize` leaves behind, and that a pinned ID still
    resolves to the same commands long after another catalog has become active. */
module CatalogFiles {
  import opened Integrity
  import opened Json
  import opened ObjectFiles
  import opened Paths
  import opened Records
  import opened ServiceSpec
  import opened TaskLife

  function FileKey(c: Catalog): Key {
    Key(c.objectId, CATALOG_FILE)
  }

  /** The store holds exactly these bytes under the key, and says so in the row. */
  predicate Holds(st: StoreState, k: Key, content: Bytes) {
    && k in st.files && st.files[k].key.objectId == k.objectId && st.files[k].size == |content|
    && k in st.bytes && st.bytes[k] == content
  }

  lemma MatchingFileIsWhole(st: StoreState, c: Catalog)
    requires FileKey(c) in st.files && FileKey(c) in st.bytes
    ensures CatalogFileMatches(st, c) <==> st.files[FileKey(c)].size == |c.raw| && st.bytes[FileKey(c)] == c.raw
  {
    var stored := st.bytes[FileKey(c)];
    assert stored[..|stored|] == stored;
  }

  /** From any prior state, also one where the object was created without its file: success means the
      file equals the raw catalog, and it comes exactly when the file already does, or is missing and can
      be stored. */
  lemma MaterializedIff(st: StoreState, c: Catalog, now: int)
    requires FilesOk(st)
    ensures var (st', ok) := Materialized(st, c, now);
            && (ok <==> if FileKey(c) in st.files then st.bytes[FileKey(c)] == c.raw
                        else IsValidId(c.objectId) && c.raw != [])
            && (ok ==> Holds(st', FileKey(c), c.raw) && c.objectId in st'.objects)
  {
    if FileKey(c) in st.files {
      MatchingFileIsWhole(WithCatalogObject(st, c, now), c);
    }
  }

  /** Running it again, at whatever time, changes nothing. */
  lemma MaterializingAgain(st: StoreState, c: Catalog, now: int, later: int)
    requires FilesOk(st) && Materialized(st, c, now).1
    ensures Materialized(Materialized(st, c, now).0, c, later) == Materialized(st, c, now)
  {
    var st' := Materialized(st, c, now).0;
    MaterializedIff(st, c, now);
    assert WithCatalogObject(st', c, later) == st';
    MatchingFileIsWhole(st', c);
  }

  // ---------------------------------------------------------------- while the file is untouched

  /** The calls that can change or remove the file. */
  predicate Touches(op: Op, k: Key) {
    || (op.AppendFile? && op.key == k)
    || op == Op.DeleteFile(k)
    || op == Op.DeleteObject(k.objectId)
  }

  ghost predicate Kept(st: StoreState, k: Key, content: Bytes) {
    Holds(st, k, content) && IsAnchored(st, k.objectId)
  }

  lemma CascadeKeepsFile(env: Env, s: Sys, op: Op, k: Key, content: Bytes)
    requires Kept(s.store, k, content) && IsObservationCall(op)
    ensures Kept(Apply(env, s, op).store, k, content)
  {
    if op.DeleteObservation? {
      assert k.objectId !in ObjectsOfObservation(s.store, op.id);
    }
  }

  lemma ObjectCallKeepsFile(env: Env, s: Sys, op: Op, k: Key, content: Bytes)
    requires Kept(s.store, k, content) && IsObjectCall(op) && !Touches(op, k)
    ensures Kept(Apply(env, s, op).store, k, content)
  {
  }

  lemma FileCallKeepsFile(env: Env, s: Sys, op: Op, k: Key, content: Bytes)
    requires Kept(s.store, k, content) && IsFileCall(op) && !Touches(op, k)
    ensures Kept(Apply(env, s, op).store, k, content)
  {
  }

  lemma MaterializingKeepsFile(st: StoreState, c: Catalog, now: int, k: Key, content: Bytes)
    requires Kept(st, k, content)
    ensures Kept(Materialized(st, c, now).0, k, content)
  {
  }

  lemma StepKeepsFile(env: Env, s: Sys, op: Op, k: Key, content: Bytes)
    requires Kept(s.store, k, content) && !Touches(op, k)
    ensures Kept(Apply(env, s, op).store, k, content)
  {
    if IsEntityCall(op) {
      EntityCallsStayThere(env, s, op);
    } else if IsObservationCall(op) {
      CascadeKeepsFile(env, s, op, k, content);
    } else if IsTaskCall(op) {
      TaskCallsStayThere(env, s, op);
    } else if IsObjectCall(op) {
      ObjectCallKeepsFile(env, s, op, k, content);
    } else if IsFileCall(op) {
      FileCallKeepsFile(env, s, op, k, content);
    } else if op.Activate? && LoadCatalog(env, op.raw).Some? {
      MaterializingKeepsFile(s.store, LoadCatalog(env, op.raw).value, op.now, k, content);
    }
  }

  predicate LeavesAlone(ops: seq<Op>, k: Key) {
    forall i | 0 <= i < |ops| :: !Touches(ops[i], k)
  }

  lemma {:induction false} RunKeepsFile(env: Env, s: Sys, ops: seq<Op>, k: Key, content: Bytes)
    requires Kept(s.store, k, content) && LeavesAlone(ops, k) && FromLoad(env, s)
    ensures Kept(Run(env, s, ops).store, k, content) && FromLoad(env, Run(env, s, ops))
    decreases |ops|
  {
    if ops != [] {
      StepKeepsFile(env, s, ops[0], k, content);
      StepKeepsFromLoad(env, s, ops[0]);
      RunKeepsFile(env, Apply(env, s, ops[0]), ops[1..], k, content);
    }
  }

  /** While the stored bytes are intact, the pinned ID resolves to the catalog exactly when it is the
      active one or small enough to be read back. */
  lemma PinnedResolvesIff(env: Env, s: Sys, c: Catalog)
    requires CollisionFree(env) && FromLoad(env, s)
    requires LoadCatalog(env, c.raw) == Some(c) && Holds(s.store, FileKey(c), c.raw)
    ensures LoadPinned(env, s, c.objectId) == Some(c) <==> c.raw != [] && (|c.raw| <= MAX_PINNED_CATALOG || s.active == Some(c))
  {
    if s.active.Some? && s.active.value.objectId == c.objectId {
      ObjectIdInjective(env.hash(s.active.value.raw), env.hash(c.raw));
      assert s.active == Some(c);
    }
  }

  /** Materialise, run any calls that leave the file alone, activations of other catalogs included, and
      the ID still loads the same catalog. */
  lemma MaterializedThenLoaded(env: Env, s: Sys, raw: Bytes, now: int, ops: seq<Op>)
    requires FilesOk(s.store) && FromLoad(env, s) && CollisionFree(env)
    requires Accepts(env, s, Op.Activate(raw, now)) && !TakesOverOwned(env, s, Op.Activate(raw, now))
    requires 0 < |raw| <= MAX_PINNED_CATALOG && LeavesAlone(ops, FileKey(LoadCatalog(env, raw).value))
    ensures var c := LoadCatalog(env, raw).value;
            LoadPinned(env, Run(env, Apply(env, s, Op.Activate(raw, now)), ops), c.objectId) == Some(c)
  {
    var c := LoadCatalog(env, raw).value;
    var s' := Apply(env, s, Op.Activate(raw, now));
    MaterializedIff(s.store, c, now);
    MaterializingStaysThere(s.store, c, now);
    RunKeepsFile(env, s', ops, FileKey(c), raw);
    PinnedResolvesIff(env, Run(env, s', ops), c);
  }
}
