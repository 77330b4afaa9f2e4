/** The service as a state machine: for every call, when it is accepted, what it leaves behind and
    what it publishes. `Services` shows that the methods do this step by step. */
module ServiceSpec {
  import opened Json
  import opened ObjectFiles
  import opened Paths
  import opened Records
  import opened TaskJson

  const MAX_PINNED_CATALOG: nat := 8 * 1024 * 1024

  datatype Sys = Sys(store: StoreState, active: Option<Catalog>)

  /** `now` is the clock reading of the call. */
  datatype Op =
    | CreateEntity(id: string, typ: string, subtype: string, alias: string, json: Option<JsonMap>, now: int)
    | PatchEntity(id: string, newSubtype: Option<string>, newAlias: Option<string>, json: Option<JsonMap>, now: int)
    | DeleteEntity(id: string)
    | CreateObservation(id: string, assetId: string, json: Option<JsonMap>, now: int)
    | PatchObservation(id: string, json: Option<JsonMap>, now: int)
    | DeleteObservation(id: string)
    | CreateTask(id: string, assetId: string, json: Option<JsonMap>, now: int)
    | PatchTask(id: string, json: Option<JsonMap>, now: int)
    | Transition(id: string, status: string, json: Option<JsonMap>, now: int)
    | DeleteTask(id: string)
    | CreateObject(id: string, typ: string, ownerType: string, ownerId: string, json: Option<JsonMap>, now: int)
    | PatchObject(id: string, newType: Option<string>, json: Option<JsonMap>, now: int)
    | DeleteObject(id: string)
    | UploadFile(key: Key, source: Source, maxBytes: int, now: int)
    | AppendFile(key: Key, source: Source, maxBytes: int, now: int)
    | DeleteFile(key: Key)
    | Activate(raw: Bytes, now: int)
    | Deactivate

  /** `created` tells the created events from the updated ones. */
  datatype Event =
    | EntitySaved(created: bool, entity: Entity)
    | EntityDeleted(id: string)
    | ObservationSaved(created: bool, observation: Observation)
    | ObservationDeleted(id: string)
    | TaskSaved(created: bool, task: Task)
    | TaskDeleted(id: string)
    | ObjectSaved(created: bool, obj: Object)
    | ObjectDeleted(id: string)

  // ---------------------------------------------------------------- store questions

  predicate EntityHasDependents(s: StoreState, id: string) {
    || (exists t | t in s.tasks :: s.tasks[t].assetId == id)
    || (exists o | o in s.observations :: s.observations[o].assetId == id)
    || (exists o | o in s.objects :: s.objects[o].ownerType == "entity" && s.objects[o].ownerId == id)
  }

  predicate TaskOwnsObjects(s: StoreState, id: string) {
    exists o | o in s.objects :: s.objects[o].ownerType == "task" && s.objects[o].ownerId == id
  }

  predicate IsPinned(s: StoreState, id: string) {
    exists t | t in s.tasks :: s.tasks[t].pin == id
  }

  function ObjectsOfObservation(s: StoreState, id: string): set<string> {
    set o | o in s.objects && s.objects[o].ownerType == "observation" && s.objects[o].ownerId == id
  }

  /** Objects go together with the files recorded under them. */
  function WithoutObjects(s: StoreState, ids: set<string>): StoreState {
    var files := set k | k in s.files && s.files[k].key.objectId in ids;
    s.(objects := s.objects - ids, files := s.files - files, bytes := s.bytes - files)
  }

  function UploadLimit(requested: int): nat {
    if requested > 0 then requested else 16 * 1024 * 1024
  }

  predicate IsAsset(s: StoreState, id: string) {
    id in s.entities && s.entities[id].typ == "asset"
  }

  predicate BodyOk(src: Source, limit: nat) {
    !src.fails && 0 < |Content(src)| <= limit
  }

  // ---------------------------------------------------------------- catalogs

  ghost function LoadPinned(env: Env, s: Sys, id: string): Option<Catalog> {
    if s.active.Some? && s.active.value.objectId == id then
      var c := s.active.value;
      var hash := if c.contentHash == "" then env.hash(c.raw) else c.contentHash;
      if c.raw != [] && ObjectIdFromHash(hash) == id then s.active else None
    else StoredCatalog(env, s.store, id)
  }

  /** `loadPinnedCatalog` on a catalog that is not the active one. */
  ghost function StoredCatalog(env: Env, s: StoreState, id: string): Option<Catalog> {
    var k := Key(id, CATALOG_FILE);
    if k in s.files && s.files[k].key.objectId == id && k in s.bytes && 0 < s.files[k].size == |s.bytes[k]| <= MAX_PINNED_CATALOG
       && ObjectIdFromHash(env.hash(s.bytes[k])) == id
    then LoadCatalog(env, s.bytes[k])
    else None
  }

  function CatalogObject(c: Catalog, now: int): Object {
    var json := map["catalog_id" := Str(c.catalogId), "version" := Str(c.version)];
    Object(c.objectId, "command_catalog", "system", "active_command_catalog", json, now, now)
  }

  function WithCatalogObject(s: StoreState, c: Catalog, now: int): StoreState {
    if c.objectId in s.objects then s
    else s.(objects := s.objects[c.objectId := CatalogObject(c, now)])
  }

  predicate CatalogFileMatches(s: StoreState, c: Catalog) {
    var k := Key(c.objectId, CATALOG_FILE);
    && k in s.files && k in s.bytes && s.files[k].size == |c.raw|
    && s.bytes[k][..if |s.bytes[k]| <= |c.raw| + 1 then |s.bytes[k]| else |c.raw| + 1] == c.raw
  }

  function WithFile(s: StoreState, k: Key, content: Bytes, now: int): StoreState {
    s.(files := s.files[k := ObjectFile(k, ObjectPath(k.objectId, k.fileId), |content|, now, now)],
       bytes := s.bytes[k := content])
  }

  /** `Materialize`: the object is created if missing, then its file is verified or written; the flag
      is false when an error is returned, which can leave the object without its file. */
  function Materialized(s: StoreState, c: Catalog, now: int): (StoreState, bool) {
    var k := Key(c.objectId, CATALOG_FILE);
    var s1 := WithCatalogObject(s, c, now);
    if k in s1.files then (s1, CatalogFileMatches(s1, c))
    else if !IsValidId(c.objectId) || c.raw == [] then (s1, false)
    else (WithFile(s1, k, c.raw, now), true)
  }

  // ---------------------------------------------------------------- tasks

  predicate AllowedTransition(current: string, target: string) {
    || (current == "pending" && target == "acknowledged")
    || (current == "acknowledged" && target in {"completed", "failed"})
  }

  /** The JSON `PatchTask` computes. */
  function PatchedJson(t: Task, patch: Option<JsonMap>): MergeResult {
    if t.status == "pending" then MergeResult.Merged(WithSections(t.json, Normal(patch)))
    else Restricted(t.json, Normal(patch))
  }

  ghost predicate PinnedCommandOk(env: Env, s: Sys, t: Task, json: JsonMap) {
    && LoadPinned(env, s, t.pin).Some?
    && TaskCommandOk(env, json, LoadPinned(env, s, t.pin).value.commands)
  }

  ghost predicate TaskPatchOk(env: Env, s: Sys, t: Task, patch: Option<JsonMap>) {
    && var m := PatchedJson(t, patch);
    && m.Merged?
    && PinnedCommandOk(env, s, t, m.json)
    && if t.status == "pending" then
         t.assetId in s.store.entities && AssetSupports(s.store.entities[t.assetId], CommandTypeOf(m.json))
       else SameCommand(t.json, m.json)
  }

  ghost predicate CanPatchTask(env: Env, s: Sys, id: string, patch: Option<JsonMap>) {
    id in s.store.tasks && TaskPatchOk(env, s, s.store.tasks[id], patch)
  }

  ghost predicate TransitionOk(env: Env, s: Sys, t: Task, status: string, patch: Option<JsonMap>) {
    && var m := Restricted(t.json, Normal(patch));
    && AllowedTransition(t.status, status)
    && m.Merged? && SameCommand(t.json, m.json)
    && PinnedCommandOk(env, s, t, m.json)
  }

  ghost predicate CanTransition(env: Env, s: Sys, id: string, status: string, patch: Option<JsonMap>) {
    id in s.store.tasks && TransitionOk(env, s, s.store.tasks[id], status, patch)
  }

  ghost predicate NewTaskOk(env: Env, s: Sys, assetId: string, json: JsonMap) {
    && IsAsset(s.store, assetId)
    && s.active.Some? && TaskCommandOk(env, json, s.active.value.commands)
    && AssetSupports(s.store.entities[assetId], CommandTypeOf(json))
  }

  ghost predicate CanCreateTask(env: Env, s: Sys, id: string, assetId: string, json: JsonMap) {
    IsValidId(id) && id !in s.store.tasks && NewTaskOk(env, s, assetId, json)
  }

  // ---------------------------------------------------------------- the machine

  ghost predicate CanCreateEntity(env: Env, st: StoreState, id: string, typ: string, json: JsonMap) {
    EntityOk(env, typ, json) && IsValidId(id) && id !in st.entities
  }

  ghost predicate CanPatchEntity(env: Env, st: StoreState, id: string, json: JsonMap) {
    id in st.entities && EntityOk(env, st.entities[id].typ, WithSections(st.entities[id].json, json))
  }

  predicate CanCreateObservation(env: Env, st: StoreState, id: string, assetId: string, json: JsonMap) {
    IsValidId(id) && id !in st.observations && IsAsset(st, assetId) && ObservationOk(env, st.objects, id, json)
  }

  predicate CanPatchObservation(env: Env, st: StoreState, id: string, json: JsonMap) {
    && id in st.observations
    && ObservationOk(env, st.objects, id, WithSections(st.observations[id].json, json))
  }

  predicate CanCreateObject(st: StoreState, id: string, typ: string, ownerType: string, ownerId: string, json: JsonMap) {
    ObjectOk(st, id, TrimSpace(typ), ownerType, ownerId, json) && id !in st.objects
  }

  predicate CanPatchObject(st: StoreState, id: string, newType: Option<string>, json: JsonMap) {
    && id in st.objects
    && var o := st.objects[id];
       ObjectOk(st, id, PatchedType(o, newType), o.ownerType, o.ownerId, WithSections(o.json, json))
  }

  /** An existing object, valid IDs, and a key and a path that are free. */
  predicate HasRoomFor(st: StoreState, k: Key) {
    && k.objectId in st.objects && IsValidId(k.objectId) && IsValidId(k.fileId)
    && k !in st.files && (forall k2 | k2 in st.files :: st.files[k2].path != ObjectPath(k.objectId, k.fileId))
  }

  predicate CanUpload(st: StoreState, k: Key, src: Source, limit: nat) {
    HasRoomFor(st, k) && BodyOk(src, limit)
  }

  predicate HasFile(st: StoreState, k: Key) {
    k in st.files && st.files[k].key.objectId == k.objectId
  }

  /** When a call succeeds. A transition to the current status succeeds and does nothing. */
  ghost predicate Accepts(env: Env, s: Sys, op: Op) {
    var st := s.store;
    match op
    case CreateEntity(id, typ, _, _, json, _) => CanCreateEntity(env, st, id, typ, Normal(json))
    case PatchEntity(id, _, _, json, _) => CanPatchEntity(env, st, id, Normal(json))
    case DeleteEntity(id) => id in st.entities && !EntityHasDependents(st, id)
    case CreateObservation(id, assetId, json, _) => CanCreateObservation(env, st, id, assetId, Normal(json))
    case PatchObservation(id, json, _) => CanPatchObservation(env, st, id, Normal(json))
    case DeleteObservation(id) => id in st.observations
    case CreateTask(id, assetId, json, _) => CanCreateTask(env, s, id, assetId, Normal(json))
    case PatchTask(id, json, _) => CanPatchTask(env, s, id, json)
    case Transition(id, status, json, _) =>
      (id in st.tasks && st.tasks[id].status == status) || CanTransition(env, s, id, status, json)
    case DeleteTask(id) => id in st.tasks && !TaskOwnsObjects(st, id)
    case CreateObject(id, typ, ownerType, ownerId, json, _) => CanCreateObject(st, id, typ, ownerType, ownerId, Normal(json))
    case PatchObject(id, newType, json, _) => CanPatchObject(st, id, newType, Normal(json))
    case DeleteObject(id) =>
      id in st.objects && !IsPinned(st, id) && !(s.active.Some? && s.active.value.objectId == id)
    case UploadFile(k, src, max, _) => CanUpload(st, k, src, UploadLimit(max))
    case AppendFile(k, src, max, _) => HasFile(st, k) && BodyOk(src, UploadLimit(max))
    case DeleteFile(k) => HasFile(st, k)
    case Activate(raw, now) => LoadCatalog(env, raw).Some? && Materialized(st, LoadCatalog(env, raw).value, now).1
    case Deactivate => true
  }

  function PatchedType(o: Object, newType: Option<string>): string {
    if newType.Some? then TrimSpace(newType.value) else o.typ
  }

  function PatchedEntity(e: Entity, subtype: Option<string>, alias: Option<string>, json: JsonMap, now: int): Entity {
    e.(subtype := subtype.GetOr(e.subtype), alias := alias.GetOr(e.alias), json := WithSections(e.json, json), updatedAt := now)
  }

  function BytesOf(s: StoreState, k: Key): Bytes {
    if k in s.bytes then s.bytes[k] else []
  }

  /** What an accepted call leaves in the store. */
  ghost function Effect(env: Env, s: Sys, op: Op): StoreState
    requires Accepts(env, s, op)
  {
    var st := s.store;
    match op
    case CreateEntity(id, typ, subtype, alias, json, now) =>
      st.(entities := st.entities[id := Entity(id, typ, subtype, alias, Normal(json), now, now)])
    case PatchEntity(id, subtype, alias, json, now) =>
      st.(entities := st.entities[id := PatchedEntity(st.entities[id], subtype, alias, Normal(json), now)])
    case DeleteEntity(id) => st.(entities := st.entities - {id})
    case CreateObservation(id, assetId, json, now) =>
      st.(observations := st.observations[id := Observation(id, assetId, Normal(json), now, now)])
    case PatchObservation(id, json, now) =>
      var o := st.observations[id];
      st.(observations := st.observations[id := o.(json := WithSections(o.json, Normal(json)), updatedAt := now)])
    case DeleteObservation(id) =>
      WithoutObjects(st.(observations := st.observations - {id}), ObjectsOfObservation(st, id))
    case CreateTask(id, assetId, json, now) =>
      st.(tasks := st.tasks[id := Task(id, "pending", assetId, s.active.value.objectId, Normal(json), now, now)])
    case PatchTask(id, json, now) =>
      st.(tasks := st.tasks[id := st.tasks[id].(json := PatchedJson(st.tasks[id], json).json, updatedAt := now)])
    case Transition(id, status, json, now) =>
      if st.tasks[id].status == status then st
      else
        var merged := Restricted(st.tasks[id].json, Normal(json)).json;
        st.(tasks := st.tasks[id := st.tasks[id].(status := status, json := merged, updatedAt := now)])
    case DeleteTask(id) => st.(tasks := st.tasks - {id})
    case CreateObject(id, typ, ownerType, ownerId, json, now) =>
      st.(objects := st.objects[id := Object(id, TrimSpace(typ), ownerType, ownerId, Normal(json), now, now)])
    case PatchObject(id, newType, json, now) =>
      var o := st.objects[id];
      st.(objects := st.objects[id :=
            o.(typ := PatchedType(o, newType), json := WithSections(o.json, Normal(json)), updatedAt := now)])
    case DeleteObject(id) => WithoutObjects(st, {id})
    case UploadFile(k, src, _, now) => WithFile(st, k, Content(src), now)
    case AppendFile(k, src, _, now) =>
      var content := BytesOf(st, k) + Content(src);
      st.(files := st.files[k := st.files[k].(size := |content|, updatedAt := now)], bytes := st.bytes[k := content])
    case DeleteFile(k) => st.(files := st.files - {k}, bytes := st.bytes - {k})
    case Activate(raw, now) => Materialized(st, LoadCatalog(env, raw).value, now).0
    case Deactivate => st
  }

  /** A refused call changes nothing, except that a failed activation may have created the object. */
  ghost function Apply(env: Env, s: Sys, op: Op): Sys {
    if Accepts(env, s, op) then
      Sys(Effect(env, s, op),
          if op.Activate? then LoadCatalog(env, op.raw) else if op.Deactivate? then None else s.active)
    else if op.Activate? && LoadCatalog(env, op.raw).Some? then
      s.(store := Materialized(s.store, LoadCatalog(env, op.raw).value, op.now).0)
    else s
  }

  // ---------------------------------------------------------------- what a call can touch

  predicate IsEntityCall(op: Op) {
    op.CreateEntity? || op.PatchEntity? || op.DeleteEntity?
  }

  predicate IsObservationCall(op: Op) {
    op.CreateObservation? || op.PatchObservation? || op.DeleteObservation?
  }

  predicate IsTaskCall(op: Op) {
    op.CreateTask? || op.PatchTask? || op.Transition? || op.DeleteTask?
  }

  predicate IsObjectCall(op: Op) {
    op.CreateObject? || op.PatchObject? || op.DeleteObject?
  }

  predicate IsFileCall(op: Op) {
    op.UploadFile? || op.AppendFile? || op.DeleteFile?
  }

  lemma RefusedChangesNothing(env: Env, s: Sys, op: Op)
    requires !Accepts(env, s, op) && !op.Activate?
    ensures Apply(env, s, op) == s
  {
  }

  lemma EntityCallsStayThere(env: Env, s: Sys, op: Op)
    requires IsEntityCall(op)
    ensures Apply(env, s, op) == s.(store := s.store.(entities := Apply(env, s, op).store.entities))
  {
  }

  lemma TaskCallsStayThere(env: Env, s: Sys, op: Op)
    requires IsTaskCall(op)
    ensures Apply(env, s, op) == s.(store := s.store.(tasks := Apply(env, s, op).store.tasks))
  {
  }

  lemma ObservationCallsStayThere(env: Env, s: Sys, op: Op)
    requires IsObservationCall(op)
    ensures var s' := Apply(env, s, op);
            s'.store.entities == s.store.entities && s'.store.tasks == s.store.tasks && s'.active == s.active
  {
  }

  lemma ObjectCallsStayThere(env: Env, s: Sys, op: Op)
    requires IsObjectCall(op)
    ensures var s' := Apply(env, s, op);
            && s'.store.entities == s.store.entities && s'.store.observations == s.store.observations
            && s'.store.tasks == s.store.tasks && s'.active == s.active
  {
  }

  lemma FileCallsStayThere(env: Env, s: Sys, op: Op)
    requires IsFileCall(op)
    ensures var s' := Apply(env, s, op);
            s' == s.(store := s.store.(files := s'.store.files, bytes := s'.store.bytes))
  {
  }

  lemma MaterializingStaysThere(st: StoreState, c: Catalog, now: int)
    ensures var st' := Materialized(st, c, now).0;
            && st'.entities == st.entities && st'.observations == st.observations && st'.tasks == st.tasks
            && st'.objects == WithCatalogObject(st, c, now).objects
  {
  }

  lemma ActivationsStayThere(env: Env, s: Sys, op: Op)
    requires op.Activate? || op.Deactivate?
    ensures var s' := Apply(env, s, op);
            && s'.store.entities == s.store.entities && s'.store.observations == s.store.observations
            && s'.store.tasks == s.store.tasks
  {
    if op.Activate? && LoadCatalog(env, op.raw).Some? {
      MaterializingStaysThere(s.store, LoadCatalog(env, op.raw).value, op.now);
    }
  }

  lemma TasksStay(env: Env, s: Sys, op: Op)
    requires !IsTaskCall(op)
    ensures Apply(env, s, op).store.tasks == s.store.tasks
  {
    if IsEntityCall(op) {
      EntityCallsStayThere(env, s, op);
    } else if IsObservationCall(op) {
      ObservationCallsStayThere(env, s, op);
    } else if IsObjectCall(op) {
      ObjectCallsStayThere(env, s, op);
    } else if IsFileCall(op) {
      FileCallsStayThere(env, s, op);
    } else {
      ActivationsStayThere(env, s, op);
    }
  }

  /** What a call publishes: one event if it changed a record, none otherwise. */
  ghost function Emits(env: Env, s: Sys, op: Op): seq<Event> {
    if !Accepts(env, s, op) then []
    else
      var st := Effect(env, s, op);
      match op
      case CreateEntity(id, _, _, _, _, _) => [EntitySaved(true, st.entities[id])]
      case PatchEntity(id, _, _, _, _) => [EntitySaved(false, st.entities[id])]
      case DeleteEntity(id) => [EntityDeleted(id)]
      case CreateObservation(id, _, _, _) => [ObservationSaved(true, st.observations[id])]
      case PatchObservation(id, _, _) => [ObservationSaved(false, st.observations[id])]
      case DeleteObservation(id) => [ObservationDeleted(id)]
      case CreateTask(id, _, _, _) => [TaskSaved(true, st.tasks[id])]
      case PatchTask(id, _, _) => [TaskSaved(false, st.tasks[id])]
      case Transition(id, status, _, _) =>
        if s.store.tasks[id].status == status then [] else [TaskSaved(false, st.tasks[id])]
      case DeleteTask(id) => [TaskDeleted(id)]
      case CreateObject(id, _, _, _, _, _) => [ObjectSaved(true, st.objects[id])]
      case PatchObject(id, _, _, _) => [ObjectSaved(false, st.objects[id])]
      case DeleteObject(id) => [ObjectDeleted(id)]
      case UploadFile(k, _, _, _) => [ObjectSaved(false, st.objects[k.objectId])]
      case AppendFile(k, _, _, _) => if k.objectId in st.objects then [ObjectSaved(false, st.objects[k.objectId])] else []
      case DeleteFile(k) => if k.objectId in st.objects then [ObjectSaved(false, st.objects[k.objectId])] else []
      case Activate(_, _) => []
      case Deactivate => []
  }
}
