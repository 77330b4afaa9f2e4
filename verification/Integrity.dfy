/** Referential integrity of the service over all runs. */
module Integrity {
  import opened ObjectFiles
  import opened Paths
  import opened Records
  import opened ServiceSpec

  ghost predicate EntitiesOk(st: StoreState) {
    forall e | e in st.entities :: st.entities[e].id == e && st.entities[e].typ in ENTITY_TYPES
  }

  /** Every observation comes from an existing asset. */
  ghost predicate ObservationsOk(st: StoreState) {
    forall o | o in st.observations :: st.observations[o].id == o && IsAsset(st, st.observations[o].assetId)
  }

  /** An object that a cascade cannot take away. */
  predicate IsAnchored(st: StoreState, id: string) {
    id in st.objects && st.objects[id].ownerType != "observation"
  }

  /** Every task targets an existing asset and pins an existing object. */
  ghost predicate TasksOk(st: StoreState) {
    forall t | t in st.tasks ::
      && st.tasks[t].id == t && IsAsset(st, st.tasks[t].assetId)
      && IsAnchored(st, st.tasks[t].pin)
  }

  /** Every object has its owner, and a fusion_provenance object an existing track. */
  ghost predicate ObjectsOk(st: StoreState) {
    forall o | o in st.objects ::
      && st.objects[o].id == o
      && OwnerExists(st, st.objects[o].ownerType, st.objects[o].ownerId)
      && (st.objects[o].typ == "fusion_provenance" ==>
            st.objects[o].ownerType == "entity" && st.entities[st.objects[o].ownerId].typ == "track")
  }

  /** File rows and byte entries have equal keys and matching sizes, under existing objects. */
  ghost predicate FilesOk(st: StoreState) {
    && st.files.Keys == st.bytes.Keys
    && forall k | k in st.files ::
         && st.files[k].key == k && k.objectId in st.objects
         && IsValidId(k.objectId) && IsValidId(k.fileId)
         && st.files[k].path == ObjectPath(k.objectId, k.fileId)
         && st.files[k].size == |st.bytes[k]|
  }

  ghost predicate StoreOk(st: StoreState) {
    EntitiesOk(st) && ObservationsOk(st) && TasksOk(st) && ObjectsOk(st) && FilesOk(st)
  }

  /** The active catalog's object exists and stays out of the reach of cascades. */
  ghost predicate ActiveOk(s: Sys) {
    s.active.Some? ==> IsAnchored(s.store, s.active.value.objectId)
  }

  ghost predicate Integral(s: Sys) {
    StoreOk(s.store) && ActiveOk(s)
  }

  /** The one unchecked case: activating a catalog whose object an observation already owns. */
  ghost predicate TakesOverOwned(env: Env, s: Sys, op: Op) {
    && op.Activate? && LoadCatalog(env, op.raw).Some?
    && var id := LoadCatalog(env, op.raw).value.objectId;
    && id in s.store.objects && s.store.objects[id].ownerType == "observation"
  }

  // ---------------------------------------------------------------- one step

  lemma TrimKeepsProvenance(typ: string)
    requires typ == "fusion_provenance"
    ensures TrimSpace(typ) == typ
  {
  }

  /** The path-conflict scan that follows the key check never fires. */
  lemma PathScanNeverFires(st: StoreState, k: Key)
    requires FilesOk(st) && k !in st.files && IsValidId(k.objectId) && IsValidId(k.fileId)
    ensures forall k2 | k2 in st.files :: st.files[k2].path != ObjectPath(k.objectId, k.fileId)
  {
    forall k2 | k2 in st.files && st.files[k2].path == ObjectPath(k.objectId, k.fileId) ensures false {
      LogicalPathInjective(k.objectId, k.fileId, k2.objectId, k2.fileId);
    }
  }

  lemma RemovalKeepsStore(st: StoreState, ids: set<string>)
    requires StoreOk(st) && forall t | t in st.tasks :: st.tasks[t].pin !in ids
    ensures StoreOk(WithoutObjects(st, ids))
  {
  }

  lemma SavingEntityKeepsObjects(st: StoreState, e: Entity)
    requires ObjectsOk(st) && (e.id in st.entities ==> st.entities[e.id].typ == e.typ)
    ensures ObjectsOk(st.(entities := st.entities[e.id := e]))
  {
  }

  lemma SavingEntity(st: StoreState, e: Entity)
    requires StoreOk(st) && e.typ in ENTITY_TYPES && (e.id in st.entities ==> st.entities[e.id].typ == e.typ)
    ensures StoreOk(st.(entities := st.entities[e.id := e]))
  {
    SavingEntityKeepsObjects(st, e);
  }

  lemma DroppingEntity(st: StoreState, id: string)
    requires StoreOk(st) && !EntityHasDependents(st, id)
    ensures StoreOk(st.(entities := st.entities - {id}))
  {
  }

  lemma SavingObservation(st: StoreState, o: Observation)
    requires StoreOk(st) && IsAsset(st, o.assetId)
    ensures StoreOk(st.(observations := st.observations[o.id := o]))
  {
  }

  lemma Cascading(st: StoreState, id: string)
    requires StoreOk(st)
    ensures StoreOk(WithoutObjects(st.(observations := st.observations - {id}), ObjectsOfObservation(st, id)))
  {
    var ids := ObjectsOfObservation(st, id);
    RemovalKeepsStore(st, ids);
    var st1 := WithoutObjects(st, ids);
    assert WithoutObjects(st.(observations := st.observations - {id}), ids) == st1.(observations := st1.observations - {id});
    forall o | o in st1.objects
      ensures OwnerExists(st1.(observations := st1.observations - {id}), st1.objects[o].ownerType, st1.objects[o].ownerId)
    {
      assert OwnerExists(st, st.objects[o].ownerType, st.objects[o].ownerId);
    }
  }

  lemma SavingTask(st: StoreState, t: Task)
    requires StoreOk(st) && IsAsset(st, t.assetId) && IsAnchored(st, t.pin)
    ensures StoreOk(st.(tasks := st.tasks[t.id := t]))
  {
  }

  lemma DroppingTask(st: StoreState, id: string)
    requires StoreOk(st) && !TaskOwnsObjects(st, id)
    ensures StoreOk(st.(tasks := st.tasks - {id}))
  {
  }

  lemma SavingObject(st: StoreState, o: Object)
    requires StoreOk(st) && OwnerExists(st, o.ownerType, o.ownerId)
    requires o.typ == "fusion_provenance" ==> o.ownerType == "entity" && st.entities[o.ownerId].typ == "track"
    requires o.id in st.objects ==> st.objects[o.id].ownerType == o.ownerType
    ensures StoreOk(st.(objects := st.objects[o.id := o]))
  {
  }

  lemma SavingFile(st: StoreState, k: Key, f: ObjectFile, content: Bytes)
    requires StoreOk(st) && k.objectId in st.objects && IsValidId(k.objectId) && IsValidId(k.fileId)
    requires f.key == k && f.path == ObjectPath(k.objectId, k.fileId) && f.size == |content|
    ensures StoreOk(st.(files := st.files[k := f], bytes := st.bytes[k := content]))
  {
  }

  lemma DroppingFile(st: StoreState, k: Key)
    requires StoreOk(st)
    ensures StoreOk(st.(files := st.files - {k}, bytes := st.bytes - {k}))
  {
  }

  lemma EntityStep(env: Env, s: Sys, op: Op)
    requires Integral(s) && Accepts(env, s, op) && IsEntityCall(op)
    ensures Integral(Apply(env, s, op))
  {
    if op.DeleteEntity? {
      DroppingEntity(s.store, op.id);
    } else {
      SavingEntity(s.store, Effect(env, s, op).entities[op.id]);
    }
  }

  lemma ObservationStep(env: Env, s: Sys, op: Op)
    requires Integral(s) && Accepts(env, s, op) && IsObservationCall(op)
    ensures Integral(Apply(env, s, op))
  {
    if op.DeleteObservation? {
      Cascading(s.store, op.id);
    } else {
      SavingObservation(s.store, Effect(env, s, op).observations[op.id]);
    }
  }

  /** The task a call saves targets an asset and pins an anchored object. */
  lemma SavedTask(env: Env, s: Sys, op: Op)
    requires Integral(s) && Accepts(env, s, op) && (op.CreateTask? || op.PatchTask? || op.Transition?)
    ensures var st' := Effect(env, s, op);
            && op.id in st'.tasks && st' == s.store.(tasks := s.store.tasks[op.id := st'.tasks[op.id]])
            && st'.tasks[op.id].id == op.id && IsAsset(s.store, st'.tasks[op.id].assetId)
            && IsAnchored(s.store, st'.tasks[op.id].pin)
  {
    var st' := Effect(env, s, op);
    assert s.store.tasks[op.id := st'.tasks[op.id]] == st'.tasks;
  }

  lemma TaskStep(env: Env, s: Sys, op: Op)
    requires Integral(s) && Accepts(env, s, op) && IsTaskCall(op)
    ensures Integral(Apply(env, s, op))
  {
    TaskCallsStayThere(env, s, op);
    if op.DeleteTask? {
      DroppingTask(s.store, op.id);
    } else {
      SavedTask(env, s, op);
      SavingTask(s.store, Effect(env, s, op).tasks[op.id]);
    }
  }

  lemma ObjectDeletion(env: Env, s: Sys, id: string)
    requires Integral(s) && Accepts(env, s, Op.DeleteObject(id))
    ensures Integral(Apply(env, s, Op.DeleteObject(id)))
  {
    RemovalKeepsStore(s.store, {id});
  }

  /** Creating and patching save one object under its ID. */
  lemma SavedObject(env: Env, s: Sys, op: Op)
    requires Accepts(env, s, op) && (op.CreateObject? || op.PatchObject?)
    requires forall o | o in s.store.objects :: s.store.objects[o].id == o
    ensures op.id in Effect(env, s, op).objects
    ensures var o := Effect(env, s, op).objects[op.id];
            o.id == op.id && Effect(env, s, op) == s.store.(objects := s.store.objects[o.id := o])
  {
  }

  lemma SavedObjectIsOk(env: Env, s: Sys, op: Op)
    requires ObjectsOk(s.store) && Accepts(env, s, op) && (op.CreateObject? || op.PatchObject?)
    requires op.id in Effect(env, s, op).objects
    ensures var o := Effect(env, s, op).objects[op.id];
            && OwnerExists(s.store, o.ownerType, o.ownerId)
            && (o.typ == "fusion_provenance" ==> o.ownerType == "entity" && s.store.entities[o.ownerId].typ == "track")
            && (op.id in s.store.objects ==> s.store.objects[op.id].ownerType == o.ownerType)
  {
    var o := Effect(env, s, op).objects[op.id];
    if o.typ == "fusion_provenance" {
      TrimKeepsProvenance(o.typ);
    }
  }

  lemma ObjectStep(env: Env, s: Sys, op: Op)
    requires Integral(s) && Accepts(env, s, op) && (op.CreateObject? || op.PatchObject?)
    ensures Integral(Apply(env, s, op))
  {
    SavedObject(env, s, op);
    SavedObjectIsOk(env, s, op);
    SavingObject(s.store, Effect(env, s, op).objects[op.id]);
  }

  /** The file a call saves is under its key and path, with a row that tells its size. */
  lemma SavedFile(env: Env, s: Sys, op: Op)
    requires FilesOk(s.store) && Accepts(env, s, op) && (op.UploadFile? || op.AppendFile?)
    ensures var st', k := Effect(env, s, op), op.key;
            && k in st'.files && k in st'.bytes
            && st' == s.store.(files := s.store.files[k := st'.files[k]], bytes := s.store.bytes[k := st'.bytes[k]])
            && k.objectId in s.store.objects && IsValidId(k.objectId) && IsValidId(k.fileId)
            && st'.files[k].key == k && st'.files[k].path == ObjectPath(k.objectId, k.fileId)
            && st'.files[k].size == |st'.bytes[k]|
  {
  }

  lemma FileStep(env: Env, s: Sys, op: Op)
    requires Integral(s) && Accepts(env, s, op) && IsFileCall(op)
    ensures Integral(Apply(env, s, op))
  {
    FileCallsStayThere(env, s, op);
    if op.DeleteFile? {
      DroppingFile(s.store, op.key);
    } else {
      var st' := Effect(env, s, op);
      SavedFile(env, s, op);
      SavingFile(s.store, op.key, st'.files[op.key], st'.bytes[op.key]);
    }
  }

  lemma CatalogFileIsValid()
    ensures IsValidId(CATALOG_FILE)
  {
    assert CATALOG_FILE[0] == 'c';
  }

  lemma AddingCatalogObject(st: StoreState, c: Catalog, now: int)
    requires StoreOk(st)
    ensures StoreOk(WithCatalogObject(st, c, now))
    ensures c.objectId !in st.objects ==> WithCatalogObject(st, c, now).objects[c.objectId].ownerType == "system"
  {
    if c.objectId !in st.objects {
      SavingObject(st, WithCatalogObject(st, c, now).objects[c.objectId]);
    }
  }

  ghost predicate SameRecords(st: StoreState, st': StoreState) {
    && st'.objects == st.objects && st'.tasks == st.tasks
    && st'.entities == st.entities && st'.observations == st.observations
  }

  lemma StoringFile(st: StoreState, k: Key, content: Bytes, now: int)
    requires StoreOk(st) && k.objectId in st.objects && IsValidId(k.objectId) && IsValidId(k.fileId)
    ensures StoreOk(WithFile(st, k, content, now)) && SameRecords(st, WithFile(st, k, content, now))
  {
    SavingFile(st, k, ObjectFile(k, ObjectPath(k.objectId, k.fileId), |content|, now, now), content);
  }

  /** Materialising only adds: the catalog's object if it was missing, and its file. */
  lemma MaterializeKeepsStore(st: StoreState, c: Catalog, now: int)
    requires StoreOk(st)
    ensures StoreOk(Materialized(st, c, now).0)
    ensures SameRecords(WithCatalogObject(st, c, now), Materialized(st, c, now).0)
  {
    AddingCatalogObject(st, c, now);
    MaterializingStaysThere(st, c, now);
    CatalogFileIsValid();
    if IsValidId(c.objectId) {
      StoringFile(WithCatalogObject(st, c, now), Key(c.objectId, CATALOG_FILE), c.raw, now);
    }
  }

  lemma ActivationStep(env: Env, s: Sys, op: Op)
    requires Integral(s) && op.Activate? && LoadCatalog(env, op.raw).Some?
    requires !TakesOverOwned(env, s, op)
    ensures Integral(Apply(env, s, op))
  {
    MaterializeKeepsStore(s.store, LoadCatalog(env, op.raw).value, op.now);
    AddingCatalogObject(s.store, LoadCatalog(env, op.raw).value, op.now);
  }

  /** Every call keeps integrity, given that an activation does not take over an observation's object. */
  lemma StepKeepsIntegrity(env: Env, s: Sys, op: Op)
    requires Integral(s) && !TakesOverOwned(env, s, op)
    ensures Integral(Apply(env, s, op))
  {
    if op.Activate? {
      if LoadCatalog(env, op.raw).Some? {
        ActivationStep(env, s, op);
      }
    } else if !Accepts(env, s, op) {
      RefusedChangesNothing(env, s, op);
    } else if IsEntityCall(op) {
      EntityStep(env, s, op);
    } else if IsObservationCall(op) {
      ObservationStep(env, s, op);
    } else if IsTaskCall(op) {
      TaskStep(env, s, op);
    } else if IsFileCall(op) {
      FileStep(env, s, op);
    } else if op.DeleteObject? {
      ObjectDeletion(env, s, op.id);
    } else if !op.Deactivate? {
      ObjectStep(env, s, op);
    }
  }

  /** Records under their own IDs, and file rows that match the bytes under existing objects. This much
      survives every call whatever. */
  ghost predicate WellKept(st: StoreState) {
    && (forall e | e in st.entities :: st.entities[e].id == e)
    && (forall o | o in st.observations :: st.observations[o].id == o)
    && (forall t | t in st.tasks :: st.tasks[t].id == t)
    && (forall o | o in st.objects :: st.objects[o].id == o)
    && FilesOk(st)
  }

  lemma EntityCallsKeepWell(env: Env, s: Sys, op: Op)
    requires WellKept(s.store) && IsEntityCall(op)
    ensures WellKept(Apply(env, s, op).store)
  {
    EntityCallsStayThere(env, s, op);
  }

  lemma TaskIdsStay(env: Env, s: Sys, op: Op)
    requires IsTaskCall(op) && forall t | t in s.store.tasks :: s.store.tasks[t].id == t
    ensures forall t | t in Apply(env, s, op).store.tasks :: Apply(env, s, op).store.tasks[t].id == t
  {
  }

  lemma OtherTasksKeepWell(st: StoreState, st': StoreState)
    requires WellKept(st) && st' == st.(tasks := st'.tasks) && forall t | t in st'.tasks :: st'.tasks[t].id == t
    ensures WellKept(st')
  {
  }

  lemma TaskCallsKeepWell(env: Env, s: Sys, op: Op)
    requires WellKept(s.store) && IsTaskCall(op)
    ensures WellKept(Apply(env, s, op).store)
  {
    TaskCallsStayThere(env, s, op);
    TaskIdsStay(env, s, op);
    OtherTasksKeepWell(s.store, Apply(env, s, op).store);
  }

  lemma RemovalKeepsWell(st: StoreState, ids: set<string>)
    requires WellKept(st)
    ensures WellKept(WithoutObjects(st, ids))
  {
  }

  lemma ObservationCallsKeepWell(env: Env, s: Sys, op: Op)
    requires WellKept(s.store) && IsObservationCall(op)
    ensures WellKept(Apply(env, s, op).store)
  {
    if op.DeleteObservation? {
      RemovalKeepsWell(s.store.(observations := s.store.observations - {op.id}), ObjectsOfObservation(s.store, op.id));
    }
  }

  lemma SavingObjectKeepsWell(st: StoreState, o: Object)
    requires WellKept(st)
    ensures WellKept(st.(objects := st.objects[o.id := o]))
  {
  }

  lemma ObjectCallsKeepWell(env: Env, s: Sys, op: Op)
    requires WellKept(s.store) && IsObjectCall(op)
    ensures WellKept(Apply(env, s, op).store)
  {
    if !Accepts(env, s, op) {
      RefusedChangesNothing(env, s, op);
    } else if op.DeleteObject? {
      RemovalKeepsWell(s.store, {op.id});
    } else {
      SavedObject(env, s, op);
      SavingObjectKeepsWell(s.store, Effect(env, s, op).objects[op.id]);
    }
  }

  lemma StoringFileKeepsWell(st: StoreState, k: Key, f: ObjectFile, content: Bytes)
    requires WellKept(st) && k.objectId in st.objects && IsValidId(k.objectId) && IsValidId(k.fileId)
    requires f.key == k && f.path == ObjectPath(k.objectId, k.fileId) && f.size == |content|
    ensures WellKept(st.(files := st.files[k := f], bytes := st.bytes[k := content]))
  {
  }

  lemma DroppingFileKeepsWell(st: StoreState, k: Key)
    requires WellKept(st)
    ensures WellKept(st.(files := st.files - {k}, bytes := st.bytes - {k}))
  {
  }

  lemma FileCallsKeepWell(env: Env, s: Sys, op: Op)
    requires WellKept(s.store) && IsFileCall(op)
    ensures WellKept(Apply(env, s, op).store)
  {
    if !Accepts(env, s, op) {
      RefusedChangesNothing(env, s, op);
    } else if op.DeleteFile? {
      DroppingFileKeepsWell(s.store, op.key);
    } else {
      var st' := Effect(env, s, op);
      SavedFile(env, s, op);
      StoringFileKeepsWell(s.store, op.key, st'.files[op.key], st'.bytes[op.key]);
    }
  }

  lemma MaterializingKeepsWell(st: StoreState, c: Catalog, now: int)
    requires WellKept(st)
    ensures WellKept(Materialized(st, c, now).0)
  {
    CatalogFileIsValid();
    var st1 := WithCatalogObject(st, c, now);
    assert WellKept(st1) && c.objectId in st1.objects;
    if IsValidId(c.objectId) {
      var k := Key(c.objectId, CATALOG_FILE);
      StoringFileKeepsWell(st1, k, ObjectFile(k, ObjectPath(k.objectId, k.fileId), |c.raw|, now, now), c.raw);
    }
  }

  lemma StepKeepsWell(env: Env, s: Sys, op: Op)
    requires WellKept(s.store)
    ensures WellKept(Apply(env, s, op).store)
  {
    if IsEntityCall(op) {
      EntityCallsKeepWell(env, s, op);
    } else if IsTaskCall(op) {
      TaskCallsKeepWell(env, s, op);
    } else if IsObservationCall(op) {
      ObservationCallsKeepWell(env, s, op);
    } else if IsObjectCall(op) {
      ObjectCallsKeepWell(env, s, op);
    } else if IsFileCall(op) {
      FileCallsKeepWell(env, s, op);
    } else if op.Activate? && LoadCatalog(env, op.raw).Some? {
      MaterializingKeepsWell(s.store, LoadCatalog(env, op.raw).value, op.now);
    }
  }

  // ---------------------------------------------------------------- runs

  ghost function Run(env: Env, s: Sys, ops: seq<Op>): Sys
    decreases |ops|
  {
    if ops == [] then s else Run(env, Apply(env, s, ops[0]), ops[1..])
  }

  ghost predicate SafeRun(env: Env, s: Sys, ops: seq<Op>)
    decreases |ops|
  {
    ops != [] ==> !TakesOverOwned(env, s, ops[0]) && SafeRun(env, Apply(env, s, ops[0]), ops[1..])
  }

  /** Over any run: every reference holds, files and bytes match, and the active catalog's object is
      there. */
  lemma {:induction false} RunKeepsIntegrity(env: Env, s: Sys, ops: seq<Op>)
    requires Integral(s) && SafeRun(env, s, ops)
    ensures Integral(Run(env, s, ops))
    decreases |ops|
  {
    if ops != [] {
      StepKeepsIntegrity(env, s, ops[0]);
      RunKeepsIntegrity(env, Apply(env, s, ops[0]), ops[1..]);
    }
  }

  predicate NoActivation(ops: seq<Op>) {
    forall i | 0 <= i < |ops| :: !ops[i].Activate? && !ops[i].Deactivate?
  }

  ghost predicate ActiveObjectPresent(s: Sys) {
    s.active.Some? && s.active.value.objectId in s.store.objects
  }

  lemma {:induction false} ActiveIsKept(env: Env, s: Sys, ops: seq<Op>)
    requires NoActivation(ops)
    ensures SafeRun(env, s, ops)
    ensures Run(env, s, ops).active == s.active
    decreases |ops|
  {
    if ops != [] {
      assert !ops[0].Activate? && !ops[0].Deactivate?;
      ActiveIsKept(env, Apply(env, s, ops[0]), ops[1..]);
    }
  }

  /** Deleting the observation that owns the active catalog's object takes the object along. */
  lemma CascadeTakesActive(env: Env, s: Sys, owner: string)
    requires ActiveObjectPresent(s) && owner in s.store.observations
    requires s.store.objects[s.active.value.objectId].ownerType == "observation"
    requires s.store.objects[s.active.value.objectId].ownerId == owner
    ensures !ActiveObjectPresent(Run(env, s, [Op.DeleteObservation(owner)]))
  {
    var op := Op.DeleteObservation(owner);
    assert s.active.value.objectId in ObjectsOfObservation(s.store, owner);
    assert [op][1..] == [];
    assert Run(env, Apply(env, s, op), []) == Apply(env, s, op);
  }

  lemma IntegralRunsKeepActive(env: Env, s: Sys, ops: seq<Op>)
    requires Integral(s) && s.active.Some? && NoActivation(ops)
    ensures ActiveObjectPresent(Run(env, s, ops))
  {
    ActiveIsKept(env, s, ops);
    RunKeepsIntegrity(env, s, ops);
  }

  lemma Activated(env: Env, s: Sys, raw: Bytes, now: int)
    requires Integral(s) && Accepts(env, s, Op.Activate(raw, now))
    ensures var s' := Apply(env, s, Op.Activate(raw, now));
            && s'.active == LoadCatalog(env, raw) && ActiveObjectPresent(s')
            && SameRecords(s'.store, WithCatalogObject(s.store, s'.active.value, now))
  {
    MaterializeKeepsStore(s.store, LoadCatalog(env, raw).value, now);
  }

  /** After a successful activation, the active catalog's object outlives every run of calls exactly
      when it was not an observation's object before. */
  lemma ActiveObjectOutlivesRunsIff(env: Env, s: Sys, raw: Bytes, now: int)
    requires Integral(s) && Accepts(env, s, Op.Activate(raw, now))
    ensures (forall ops | NoActivation(ops) :: ActiveObjectPresent(Run(env, Apply(env, s, Op.Activate(raw, now)), ops)))
       <==> !TakesOverOwned(env, s, Op.Activate(raw, now))
  {
    var op := Op.Activate(raw, now);
    var s' := Apply(env, s, op);
    Activated(env, s, raw, now);
    if !TakesOverOwned(env, s, op) {
      StepKeepsIntegrity(env, s, op);
      forall ops | NoActivation(ops) ensures ActiveObjectPresent(Run(env, s', ops)) {
        IntegralRunsKeepActive(env, s', ops);
      }
    } else {
      var owner := s.store.objects[s'.active.value.objectId].ownerId;
      assert OwnerExists(s.store, "observation", owner);
      CascadeTakesActive(env, s', owner);
      assert NoActivation([Op.DeleteObservation(owner)]);
    }
  }
}
