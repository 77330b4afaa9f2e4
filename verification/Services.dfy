/** The service's methods, step by step over the in-memory store and the active catalog. Each does what
    `ServiceSpec` says of its call. What a method hands to `publish` as its last act is its out-parameter
    `events`; `Serve` sends it to the hub. */
module Service {
  import opened EventHub
  import opened Integrity
  import opened Json
  import opened MemoryStores
  import opened ObjectFiles
  import opened Paths
  import opened Records
  import opened Replica
  import opened ServiceSpec
  import opened TaskJson

  /** The holder of the active command catalog on values; `ActiveRefinement` shows the copying one refines it. */
  class Active {
    var ready: bool
    var catalog: Option<Catalog>

    constructor ()
      ensures Get().None?
    {
      ready, catalog := false, None;
    }

    function Get(): Option<Catalog>
      reads this
    {
      if ready then catalog else None
    }

    method Set(c: Catalog)
      modifies this
      ensures Get() == Some(c)
    {
      catalog, ready := Some(c), true;
    }

    method Clear()
      modifies this
      ensures Get() == None
    {
      ready, catalog := false, None;
    }
  }

  lemma WholeInOneChunk(raw: Bytes)
    ensures Content(Source([raw], false)) == raw
  {
    assert Flatten([raw][1..]) == [];
  }

  class Services {
    const env: Env
    const stores: MemoryStore
    const commands: Active
    const hub: Hub<Event>

    constructor (env: Env, stores: MemoryStore, commands: Active, hub: Hub<Event>)
      ensures this.env == env && this.stores == stores && this.commands == commands && this.hub == hub
    {
      this.env, this.stores, this.commands, this.hub := env, stores, commands, hub;
    }

    ghost function System(): Sys
      reads stores, commands
    {
      Sys(stores.State(), commands.Get())
    }

    /** The call was done exactly when the machine accepts it, and its effect and event are the machine's. */
    ghost predicate Did(before: Sys, op: Op, done: bool, events: seq<Event>)
      reads stores, commands
    {
      && (done <==> Accepts(env, before, op))
      && System() == Apply(env, before, op)
      && events == Emits(env, before, op)
    }

    // -------------------------------------------------------------- entities

    method CreateEntity(id: string, typ: string, subtype: string, alias: string, json: Option<JsonMap>, now: int)
      returns (r: Reply<Entity>, events: seq<Event>)
      modifies stores
      ensures Did(old(System()), Op.CreateEntity(id, typ, subtype, alias, json, now), r.Done?, events)
      ensures r.Done? ==> id in stores.entities && r.value == stores.entities[id]
    {
      events := [];
      var checked := ValidateEntityInput(env, typ, Normal(json));
      if checked.Refused? {
        return Refused(checked.why), [];
      }
      if !IsValidId(id) {
        return Refused(BadRequest("entity_id")), [];
      }
      r := stores.CreateEntity(Entity(id, typ, subtype, alias, Normal(json), now, now));
      if r.Refused? {
        return;
      }
      events := [EntitySaved(true, r.value)];
    }

    lemma EntityIsPatched(s: Sys, e: Entity, subtype: Option<string>, alias: Option<string>, json: Option<JsonMap>, next: Entity)
      requires e.id in s.store.entities && s.store.entities[e.id] == e && CanPatchEntity(env, s.store, e.id, Normal(json))
      requires next == PatchedEntity(e, subtype, alias, Normal(json), next.updatedAt)
      requires System() == s.(store := s.store.(entities := s.store.entities[e.id := next]))
      ensures Did(s, Op.PatchEntity(e.id, subtype, alias, json, next.updatedAt), true, [EntitySaved(false, next)])
    {
    }

    method PatchEntity(id: string, subtype: Option<string>, alias: Option<string>, json: Option<JsonMap>, now: int)
      returns (r: Reply<Entity>, events: seq<Event>)
      requires forall e | e in stores.entities :: stores.entities[e].id == e
      modifies stores
      ensures Did(old(System()), Op.PatchEntity(id, subtype, alias, json, now), r.Done?, events)
      ensures id !in old(stores.entities) ==> r == Refused(Missing("entity"))
      ensures r.Done? ==> id in stores.entities && r.value == stores.entities[id]
    {
      events := [];
      var got := stores.GetEntity(id);
      if got.Refused? {
        return got, [];
      }
      var current := got.value;
      if subtype.Some? {
        current := current.(subtype := subtype.value);
      }
      if alias.Some? {
        current := current.(alias := alias.value);
      }
      var merged := MergeNamedSections(current.json, Normal(json));
      var checked := ValidateEntityInput(env, current.typ, merged);
      if checked.Refused? {
        return Refused(checked.why), [];
      }
      ghost var s := System();
      r := stores.UpdateEntity(current.(json := merged, updatedAt := now));
      events := [EntitySaved(false, r.value)];
      EntityIsPatched(s, got.value, subtype, alias, json, r.value);
    }

    method DeleteEntity(id: string) returns (r: Reply<()>, events: seq<Event>)
      modifies stores
      ensures Did(old(System()), Op.DeleteEntity(id), r.Done?, events)
      ensures r.Refused? ==>
                r.why == if EntityHasDependents(stores.State(), id) then Clash("dependent_records") else Missing("entity")
    {
      events := [];
      var byTask, byObservation, byObject := stores.CountEntityDependents(id);
      if byTask > 0 || byObservation > 0 || byObject > 0 {
        return Refused(Clash("dependent_records")), [];
      }
      r := stores.DeleteEntity(id);
      if r.Refused? {
        return;
      }
      events := [EntityDeleted(id)];
    }

    // -------------------------------------------------------------- observations

    method CreateObservation(id: string, assetId: string, json: Option<JsonMap>, now: int)
      returns (r: Reply<Observation>, events: seq<Event>)
      modifies stores
      ensures Did(old(System()), Op.CreateObservation(id, assetId, json, now), r.Done?, events)
      ensures r.Done? ==> id in stores.observations && r.value == stores.observations[id]
    {
      events := [];
      if !IsValidId(id) {
        return Refused(BadRequest("observation_id")), [];
      }
      var asset := stores.GetEntity(assetId);
      if asset.Refused? {
        return Refused(asset.why), [];
      }
      if asset.value.typ != "asset" {
        return Refused(BadRequest("source_asset_id")), [];
      }
      if !ObservationOk(env, stores.objects, id, Normal(json)) {
        return Refused(ObservationProblem(env, stores.objects, id, Normal(json))), [];
      }
      r := stores.CreateObservation(Observation(id, assetId, Normal(json), now, now));
      if r.Refused? {
        return;
      }
      events := [ObservationSaved(true, r.value)];
    }

    method PatchObservation(id: string, json: Option<JsonMap>, now: int)
      returns (r: Reply<Observation>, events: seq<Event>)
      requires forall o | o in stores.observations :: stores.observations[o].id == o
      modifies stores
      ensures Did(old(System()), Op.PatchObservation(id, json, now), r.Done?, events)
      ensures id !in old(stores.observations) ==> r == Refused(Missing("observation"))
      ensures r.Done? ==> id in stores.observations && r.value == stores.observations[id]
    {
      events := [];
      var got := stores.GetObservation(id);
      if got.Refused? {
        return got, [];
      }
      var current := got.value;
      var merged := MergeNamedSections(current.json, Normal(json));
      if !ObservationOk(env, stores.objects, current.id, merged) {
        return Refused(ObservationProblem(env, stores.objects, current.id, merged)), [];
      }
      r := stores.UpdateObservation(current.(json := merged, updatedAt := now));
      events := [ObservationSaved(false, r.value)];
    }

    method DeleteObservation(id: string) returns (r: Reply<()>, events: seq<Event>)
      modifies stores
      ensures Did(old(System()), Op.DeleteObservation(id), r.Done?, events)
      ensures r.Refused? ==> r.why == Missing("observation")
    {
      events := [];
      r := stores.DeleteObservation(id);
      if r.Refused? {
        return;
      }
      events := [ObservationDeleted(id)];
    }

    // -------------------------------------------------------------- tasks

    /** The checks of `CreateTask` on the asset, the active catalog and the command. */
    method CheckNewTask(assetId: string, json: JsonMap) returns (r: Reply<string>)
      ensures r.Done? <==> NewTaskOk(env, System(), assetId, json)
      ensures r.Done? ==> r.value == commands.Get().value.objectId
      ensures assetId !in stores.entities ==> r == Refused(Missing("entity"))
      ensures IsAsset(stores.State(), assetId) && commands.Get().None? ==> r == Refused(NoCatalog)
    {
      var asset := stores.GetEntity(assetId);
      if asset.Refused? {
        return Refused(asset.why);
      }
      if asset.value.typ != "asset" {
        return Refused(BadRequest("asset_id"));
      }
      var active := commands.Get();
      if active.None? {
        return Refused(NoCatalog);
      }
      var command := ValidateTaskCommandCatalog(env, json, active.value.commands);
      if command.Refused? {
        return Refused(command.why);
      }
      return if AssetSupports(asset.value, command.value) then Done(active.value.objectId) else Refused(BadCommand);
    }

    method CreateTask(id: string, assetId: string, json: Option<JsonMap>, now: int)
      returns (r: Reply<Task>, events: seq<Event>)
      modifies stores
      ensures Did(old(System()), Op.CreateTask(id, assetId, json, now), r.Done?, events)
      ensures r.Done? ==> id in stores.tasks && r.value == stores.tasks[id]
    {
      events := [];
      if !IsValidId(id) {
        return Refused(BadRequest("task_id")), [];
      }
      var checked := CheckNewTask(assetId, Normal(json));
      if checked.Refused? {
        return Refused(checked.why), [];
      }
      r, events := AddTask(id, assetId, checked.value, json, now);
    }

    lemma TaskIsAdded(s: Sys, t: Task, json: Option<JsonMap>, done: bool)
      requires IsValidId(t.id) && NewTaskOk(env, s, t.assetId, Normal(json)) && done == (t.id !in s.store.tasks)
      requires t == Task(t.id, "pending", t.assetId, s.active.value.objectId, Normal(json), t.createdAt, t.createdAt)
      requires System() == if done then s.(store := s.store.(tasks := s.store.tasks[t.id := t])) else s
      ensures Did(s, Op.CreateTask(t.id, t.assetId, json, t.createdAt), done, if done then [TaskSaved(true, t)] else [])
    {
    }

    /** The last step of `CreateTask`. */
    method AddTask(id: string, assetId: string, pin: string, json: Option<JsonMap>, now: int)
      returns (r: Reply<Task>, events: seq<Event>)
      requires IsValidId(id) && NewTaskOk(env, System(), assetId, Normal(json)) && pin == commands.Get().value.objectId
      modifies stores
      ensures Did(old(System()), Op.CreateTask(id, assetId, json, now), r.Done?, events)
      ensures r.Done? ==> id in stores.tasks && r.value == stores.tasks[id]
    {
      ghost var s := System();
      var t := Task(id, "pending", assetId, pin, Normal(json), now, now);
      r := stores.CreateTask(t);
      events := if r.Done? then [TaskSaved(true, r.value)] else [];
      TaskIsAdded(s, t, json, r.Done?);
    }

    /** `loadPinnedCatalog`. */
    method LoadPinnedCatalog(id: string) returns (r: Reply<Catalog>)
      ensures r.Done? <==> LoadPinned(env, System(), id).Some?
      ensures r.Done? ==> Some(r.value) == LoadPinned(env, System(), id)
    {
      var active := commands.Get();
      if active.Some? && active.value.objectId == id {
        var c := active.value;
        if c.raw == [] {
          return Refused(NoCatalog);
        }
        var hash := if c.contentHash == "" then env.hash(c.raw) else c.contentHash;
        if ObjectIdFromHash(hash) != id {
          return Refused(NoCatalog);
        }
        return Done(c);
      }
      var handle := stores.OpenObjectFile(Key(id, CATALOG_FILE));
      if handle.Refused? {
        return Refused(handle.why);
      }
      var (meta, content) := handle.value;
      if meta.size <= 0 {
        return Refused(NoCatalog);
      }
      var raw := content[..if |content| <= MAX_PINNED_CATALOG + 1 then |content| else MAX_PINNED_CATALOG + 1];
      if |raw| > MAX_PINNED_CATALOG || |raw| != meta.size {
        return Refused(NoCatalog);
      }
      assert raw == content;
      if ObjectIdFromHash(env.hash(raw)) != id {
        return Refused(NoCatalog);
      }
      var loaded := Load(env, raw);
      return if loaded.Some? then Done(loaded.value) else Refused(NoCatalog);
    }

    /** The merge for the task's status. */
    method MergeTaskPatch(t: Task, patch: Option<JsonMap>) returns (r: Reply<JsonMap>)
      ensures r.Done? <==>
                PatchedJson(t, patch).Merged? && (t.status != "pending" ==> SameCommand(t.json, PatchedJson(t, patch).json))
      ensures r.Done? ==> r.value == PatchedJson(t, patch).json
    {
      var next: JsonMap;
      if t.status == "pending" {
        next := MergeNamedSections(t.json, Normal(patch));
      } else {
        var merged := MergeReportable(t.json, Normal(patch));
        if !merged.Merged? {
          return Refused(if merged.Immutable? then Frozen else BadRequest("json.components"));
        }
        next := merged.json;
      }
      if t.status != "pending" && !SameCommand(t.json, next) {
        return Refused(Frozen);
      }
      return Done(next);
    }

    /** What is checked of the merged JSON once the pinned catalog is there. */
    method CheckMergedTask(t: Task, next: JsonMap, defined: seq<Command>) returns (r: Reply<()>)
      ensures r.Done? <==>
                && TaskCommandOk(env, next, defined)
                && (t.status == "pending" ==>
                      t.assetId in stores.entities && AssetSupports(stores.entities[t.assetId], CommandTypeOf(next)))
    {
      if t.status == "pending" {
        var asset := stores.GetEntity(t.assetId);
        if asset.Refused? {
          return Refused(asset.why);
        }
        var command := ValidateTaskCommandCatalog(env, next, defined);
        if command.Refused? {
          return Refused(command.why);
        }
        return if AssetSupports(asset.value, command.value) then Done(()) else Refused(BadCommand);
      }
      var command := ValidateTaskCommandCatalog(env, next, defined);
      return if command.Refused? then Refused(command.why) else Done(());
    }

    /** The checks of `PatchTask`. */
    method CheckTaskPatch(t: Task, patch: Option<JsonMap>) returns (r: Reply<JsonMap>)
      ensures r.Done? <==> TaskPatchOk(env, System(), t, patch)
      ensures r.Done? ==> r.value == PatchedJson(t, patch).json
    {
      var merged := MergeTaskPatch(t, patch);
      if merged.Refused? {
        return merged;
      }
      var pinned := LoadPinnedCatalog(t.pin);
      if pinned.Refused? {
        return Refused(pinned.why);
      }
      var checked := CheckMergedTask(t, merged.value, pinned.value.commands);
      return if checked.Refused? then Refused(checked.why) else merged;
    }

    lemma TaskIsPatched(s: Sys, t: Task, json: Option<JsonMap>, next: Task)
      requires t.id in s.store.tasks && s.store.tasks[t.id] == t && TaskPatchOk(env, s, t, json)
      requires next == t.(json := PatchedJson(t, json).json, updatedAt := next.updatedAt)
      requires System() == s.(store := s.store.(tasks := s.store.tasks[t.id := next]))
      ensures Did(s, Op.PatchTask(t.id, json, next.updatedAt), true, [TaskSaved(false, next)])
    {
    }

    method PatchTask(id: string, json: Option<JsonMap>, now: int) returns (r: Reply<Task>, events: seq<Event>)
      requires forall t | t in stores.tasks :: stores.tasks[t].id == t
      modifies stores
      ensures Did(old(System()), Op.PatchTask(id, json, now), r.Done?, events)
      ensures id !in old(stores.tasks) ==> r == Refused(Missing("task"))
      ensures r.Done? ==> id in stores.tasks && r.value == stores.tasks[id]
    {
      events := [];
      var got := stores.GetTask(id);
      if got.Refused? {
        return got, [];
      }
      var checked := CheckTaskPatch(got.value, json);
      if checked.Refused? {
        return Refused(checked.why), [];
      }
      ghost var s := System();
      r := stores.UpdateTask(got.value.(json := checked.value, updatedAt := now));
      events := [TaskSaved(false, r.value)];
      TaskIsPatched(s, got.value, json, r.value);
    }

    /** The checks of `TransitionTaskStatus` once the status is known to change. */
    method CheckTransition(t: Task, status: string, patch: Option<JsonMap>) returns (r: Reply<JsonMap>)
      ensures r.Done? <==> TransitionOk(env, System(), t, status, patch)
      ensures r.Done? ==> r.value == Restricted(t.json, Normal(patch)).json
      ensures !AllowedTransition(t.status, status) ==> r == Refused(BadTransition)
    {
      if !AllowedTransition(t.status, status) {
        return Refused(BadTransition);
      }
      var merged := MergeReportable(t.json, Normal(patch));
      if !merged.Merged? {
        return Refused(if merged.Immutable? then Frozen else BadRequest("json.components"));
      }
      if !SameCommand(t.json, merged.json) {
        return Refused(Frozen);
      }
      var pinned := LoadPinnedCatalog(t.pin);
      if pinned.Refused? {
        return Refused(pinned.why);
      }
      var command := ValidateTaskCommandCatalog(env, merged.json, pinned.value.commands);
      return if command.Refused? then Refused(command.why) else Done(merged.json);
    }

    lemma TaskIsMoved(s: Sys, t: Task, status: string, json: Option<JsonMap>, next: Task)
      requires t.id in s.store.tasks && s.store.tasks[t.id] == t && TransitionOk(env, s, t, status, json)
      requires next == t.(status := status, json := Restricted(t.json, Normal(json)).json, updatedAt := next.updatedAt)
      requires System() == s.(store := s.store.(tasks := s.store.tasks[t.id := next]))
      ensures Did(s, Op.Transition(t.id, status, json, next.updatedAt), true, [TaskSaved(false, next)])
    {
    }

    method TransitionTaskStatus(id: string, status: string, json: Option<JsonMap>, now: int)
      returns (r: Reply<Task>, events: seq<Event>)
      requires forall t | t in stores.tasks :: stores.tasks[t].id == t
      modifies stores
      ensures Did(old(System()), Op.Transition(id, status, json, now), r.Done?, events)
      ensures id !in old(stores.tasks) ==> r == Refused(Missing("task"))
      ensures id in old(stores.tasks) ==>
                var before := old(stores.tasks)[id].status;
                before != status && !AllowedTransition(before, status) ==> r == Refused(BadTransition)
      ensures r.Done? ==> id in stores.tasks && r.value == stores.tasks[id] && r.value.status == status
    {
      events := [];
      var got := stores.GetTask(id);
      if got.Refused? {
        return got, [];
      }
      if got.value.status == status {
        return got, [];
      }
      var checked := CheckTransition(got.value, status, json);
      if checked.Refused? {
        return Refused(checked.why), [];
      }
      ghost var s := System();
      r := stores.UpdateTask(got.value.(status := status, json := checked.value, updatedAt := now));
      events := [TaskSaved(false, r.value)];
      TaskIsMoved(s, got.value, status, json, r.value);
    }

    method DeleteTask(id: string) returns (r: Reply<()>, events: seq<Event>)
      modifies stores
      ensures Did(old(System()), Op.DeleteTask(id), r.Done?, events)
      ensures r.Refused? ==>
                r.why == if TaskOwnsObjects(stores.State(), id) then Clash("dependent_records") else Missing("task")
    {
      events := [];
      var count := stores.CountTaskOwnedObjects(id);
      if count > 0 {
        return Refused(Clash("dependent_records")), [];
      }
      r := stores.DeleteTask(id);
      if r.Refused? {
        return;
      }
      events := [TaskDeleted(id)];
    }

    // -------------------------------------------------------------- objects

    /** `validateObjectInput`. */
    method ValidateObjectInput(id: string, typ: string, ownerType: string, ownerId: string, json: JsonMap)
      returns (r: Reply<()>)
      ensures r.Done? <==> ObjectOk(stores.State(), id, typ, ownerType, ownerId, json)
    {
      if !ObjectOk(stores.State(), id, typ, ownerType, ownerId, json) {
        return Refused(ObjectProblem(stores.State(), id, typ, ownerType, ownerId));
      }
      return Done(());
    }

    method CreateObject(id: string, typ: string, ownerType: string, ownerId: string, json: Option<JsonMap>, now: int)
      returns (r: Reply<Object>, events: seq<Event>)
      modifies stores
      ensures Did(old(System()), Op.CreateObject(id, typ, ownerType, ownerId, json, now), r.Done?, events)
      ensures r.Done? ==> id in stores.objects && r.value == stores.objects[id]
    {
      events := [];
      if !IsValidId(id) {
        return Refused(BadRequest("object_id")), [];
      }
      var trimmed := TrimSpace(typ);
      var checked := ValidateObjectInput(id, trimmed, ownerType, ownerId, Normal(json));
      if checked.Refused? {
        return Refused(checked.why), [];
      }
      r, events := AddObject(id, typ, ownerType, ownerId, json, now);
    }

    lemma ObjectIsAdded(s: Sys, o: Object, typ: string, json: Option<JsonMap>, done: bool)
      requires ObjectOk(s.store, o.id, TrimSpace(typ), o.ownerType, o.ownerId, Normal(json))
      requires o == Object(o.id, TrimSpace(typ), o.ownerType, o.ownerId, Normal(json), o.createdAt, o.createdAt)
      requires done == (o.id !in s.store.objects)
      requires System() == if done then s.(store := s.store.(objects := s.store.objects[o.id := o])) else s
      ensures Did(s, Op.CreateObject(o.id, typ, o.ownerType, o.ownerId, json, o.createdAt), done,
                  if done then [ObjectSaved(true, o)] else [])
    {
    }

    /** The last step of `CreateObject`. */
    method AddObject(id: string, typ: string, ownerType: string, ownerId: string, json: Option<JsonMap>, now: int)
      returns (r: Reply<Object>, events: seq<Event>)
      requires ObjectOk(stores.State(), id, TrimSpace(typ), ownerType, ownerId, Normal(json))
      modifies stores
      ensures Did(old(System()), Op.CreateObject(id, typ, ownerType, ownerId, json, now), r.Done?, events)
      ensures r.Done? ==> id in stores.objects && r.value == stores.objects[id]
    {
      ghost var s := System();
      var o := Object(id, TrimSpace(typ), ownerType, ownerId, Normal(json), now, now);
      ExistingOwnerIsFound(stores.State(), o);
      r := stores.CreateObject(o);
      events := if r.Done? then [ObjectSaved(true, r.value)] else [];
      ObjectIsAdded(s, o, typ, json, r.Done?);
    }

    method PatchObject(id: string, newType: Option<string>, json: Option<JsonMap>, now: int)
      returns (r: Reply<Object>, events: seq<Event>)
      requires forall o | o in stores.objects :: stores.objects[o].id == o
      modifies stores
      ensures Did(old(System()), Op.PatchObject(id, newType, json, now), r.Done?, events)
      ensures r.Done? ==> id in stores.objects && r.value == stores.objects[id]
    {
      events := [];
      var got := stores.GetObject(id);
      if got.Refused? {
        return got, [];
      }
      var obj := got.value;
      if newType.Some? {
        obj := obj.(typ := TrimSpace(newType.value));
      }
      var merged := MergeNamedSections(obj.json, Normal(json));
      var checked := ValidateObjectInput(obj.id, obj.typ, obj.ownerType, obj.ownerId, merged);
      if checked.Refused? {
        return Refused(checked.why), [];
      }
      r, events := SavePatchedObject(got.value, newType, json, obj.(json := merged, updatedAt := now));
    }

    /** The last step of `PatchObject`. */
    method SavePatchedObject(o: Object, newType: Option<string>, json: Option<JsonMap>, next: Object)
      returns (r: Reply<Object>, events: seq<Event>)
      requires o.id in stores.objects && stores.objects[o.id] == o && CanPatchObject(stores.State(), o.id, newType, Normal(json))
      requires next == o.(typ := PatchedType(o, newType), json := WithSections(o.json, Normal(json)), updatedAt := next.updatedAt)
      modifies stores
      ensures Did(old(System()), Op.PatchObject(o.id, newType, json, next.updatedAt), r.Done?, events)
      ensures r.Done? ==> o.id in stores.objects && r.value == stores.objects[o.id]
    {
      r := stores.UpdateObject(next);
      events := [ObjectSaved(false, r.value)];
    }

    /** Under `RunWhileObjectInactive`. */
    method DeleteObject(id: string) returns (r: Reply<()>, events: seq<Event>)
      modifies stores
      ensures Did(old(System()), Op.DeleteObject(id), r.Done?, events)
      ensures commands.Get().Some? && commands.Get().value.objectId == id ==> r == Refused(Clash("protected"))
    {
      events := [];
      var active := commands.Get();
      if active.Some? && active.value.objectId == id {
        return Refused(Clash("protected")), [];
      }
      r := stores.DeleteObject(id);
      if r.Refused? {
        return;
      }
      events := [ObjectDeleted(id)];
    }

    // -------------------------------------------------------------- files

    method UploadObjectFile(k: Key, src: Source, maxBytes: int, now: int)
      returns (r: Reply<ObjectFile>, events: seq<Event>)
      modifies stores
      ensures Did(old(System()), Op.UploadFile(k, src, maxBytes, now), r.Done?, events)
      ensures r.Done? ==> k in stores.files && r.value == stores.files[k]
    {
      events := [];
      if !IsValidId(k.fileId) {
        return Refused(BadRequest("file_id")), [];
      }
      r := stores.CreateObjectFile(k, src, maxBytes, now);
      if r.Refused? {
        return;
      }
      var got := stores.GetObject(r.value.key.objectId);
      if got.Done? {
        events := [ObjectSaved(false, got.value)];
      }
    }

    method AppendObjectFile(k: Key, src: Source, maxBytes: int, now: int)
      returns (r: Reply<ObjectFile>, events: seq<Event>)
      modifies stores
      ensures Did(old(System()), Op.AppendFile(k, src, maxBytes, now), r.Done?, events)
      ensures r.Done? ==> k in stores.files && r.value == stores.files[k]
    {
      events := [];
      r := stores.AppendObjectFile(k, src, maxBytes, now);
      if r.Refused? {
        return;
      }
      var got := stores.GetObject(k.objectId);
      if got.Done? {
        events := [ObjectSaved(false, got.value)];
      }
    }

    method DeleteObjectFile(k: Key) returns (r: Reply<()>, events: seq<Event>)
      modifies stores
      ensures Did(old(System()), Op.DeleteFile(k), r.Done?, events)
    {
      events := [];
      r := stores.DeleteObjectFile(k);
      if r.Refused? {
        return;
      }
      var got := stores.GetObject(k.objectId);
      if got.Done? {
        events := [ObjectSaved(false, got.value)];
      }
    }

    // -------------------------------------------------------------- catalogs

    /** `verifyMaterializedCatalogFile`. */
    method VerifyCatalogFile(c: Catalog) returns (ok: bool)
      requires FilesOk(stores.State())
      ensures ok <==> CatalogFileMatches(stores.State(), c)
    {
      var handle := stores.OpenObjectFile(Key(c.objectId, CATALOG_FILE));
      if handle.Refused? {
        return false;
      }
      var (meta, content) := handle.value;
      if meta.size != |c.raw| {
        return false;
      }
      ok := content[..if |content| <= meta.size + 1 then |content| else meta.size + 1] == c.raw;
    }

    /** The first part of `Materialize`. */
    method EnsureCatalogObject(c: Catalog, now: int)
      modifies stores
      ensures stores.State() == WithCatalogObject(old(stores.State()), c, now)
    {
      var got := stores.GetObject(c.objectId);
      if got.Refused? {
        var created := stores.CreateObject(CatalogObject(c, now));
      }
    }

    /** The scan of the object's files for the catalog file. */
    method HasCatalogFile(c: Catalog) returns (found: bool)
      requires forall k | k in stores.files :: stores.files[k].key == k
      ensures found <==> Key(c.objectId, CATALOG_FILE) in stores.files
    {
      var listed := stores.ListObjectFilesForObject(c.objectId);
      assert Key(c.objectId, CATALOG_FILE) in stores.files ==> stores.files[Key(c.objectId, CATALOG_FILE)] in listed;
      for i := 0 to |listed|
        invariant forall j | 0 <= j < i :: listed[j].key.fileId != CATALOG_FILE
      {
        assert listed[i] in listed;
        if listed[i].key.fileId == CATALOG_FILE {
          return true;
        }
      }
      return false;
    }

    /** The upload at the end of `Materialize`; a conflict would be taken for success, but none can occur. */
    method UploadCatalog(c: Catalog, now: int) returns (ok: bool)
      requires FilesOk(stores.State()) && c.objectId in stores.objects && Key(c.objectId, CATALOG_FILE) !in stores.files
      modifies stores
      ensures ok <==> IsValidId(c.objectId) && c.raw != []
      ensures stores.State() == if ok then WithFile(old(stores.State()), Key(c.objectId, CATALOG_FILE), c.raw, now)
                                else old(stores.State())
    {
      var k := Key(c.objectId, CATALOG_FILE);
      CatalogFileIsValid();
      if IsValidId(c.objectId) {
        PathScanNeverFires(stores.State(), k);
      }
      WholeInOneChunk(c.raw);
      var uploaded := stores.CreateObjectFile(k, Source([c.raw], false), |c.raw| + 1, now);
      ok := uploaded.Done? || uploaded.why.Clash?;
    }

    /** `Materialize`. */
    method Materialize(c: Catalog, now: int) returns (ok: bool)
      requires FilesOk(stores.State())
      modifies stores
      ensures (stores.State(), ok) == Materialized(old(stores.State()), c, now)
    {
      EnsureCatalogObject(c, now);
      var found := HasCatalogFile(c);
      if found {
        ok := VerifyCatalogFile(c);
      } else {
        ok := UploadCatalog(c, now);
      }
    }

    /** Loading a catalog file, materialising it and making it the active one. */
    method Activate(raw: Bytes, now: int) returns (ok: bool)
      requires FilesOk(stores.State())
      modifies stores, commands
      ensures Did(old(System()), Op.Activate(raw, now), ok, [])
    {
      var loaded := Load(env, raw);
      if loaded.None? {
        return false;
      }
      ok := Materialize(loaded.value, now);
      if ok {
        commands.Set(loaded.value);
      }
    }

    method Deactivate()
      modifies commands
      ensures Did(old(System()), Op.Deactivate, true, [])
    {
      commands.Clear();
    }

    // -------------------------------------------------------------- serving calls

    method ServeEntityCall(op: Op) returns (done: bool, events: seq<Event>)
      requires IsEntityCall(op) && forall e | e in stores.entities :: stores.entities[e].id == e
      modifies stores
      ensures Did(old(System()), op, done, events)
    {
      match op {
        case CreateEntity(id, typ, subtype, alias, json, now) =>
          var r, out := CreateEntity(id, typ, subtype, alias, json, now);
          done, events := r.Done?, out;
        case PatchEntity(id, subtype, alias, json, now) =>
          var r, out := PatchEntity(id, subtype, alias, json, now);
          done, events := r.Done?, out;
        case DeleteEntity(id) =>
          var r, out := DeleteEntity(id);
          done, events := r.Done?, out;
      }
    }

    method ServeObservationCall(op: Op) returns (done: bool, events: seq<Event>)
      requires IsObservationCall(op) && forall o | o in stores.observations :: stores.observations[o].id == o
      modifies stores
      ensures Did(old(System()), op, done, events)
    {
      match op {
        case CreateObservation(id, assetId, json, now) =>
          var r, out := CreateObservation(id, assetId, json, now);
          done, events := r.Done?, out;
        case PatchObservation(id, json, now) =>
          var r, out := PatchObservation(id, json, now);
          done, events := r.Done?, out;
        case DeleteObservation(id) =>
          var r, out := DeleteObservation(id);
          done, events := r.Done?, out;
      }
    }

    method ServeTaskCall(op: Op) returns (done: bool, events: seq<Event>)
      requires IsTaskCall(op) && forall t | t in stores.tasks :: stores.tasks[t].id == t
      modifies stores
      ensures Did(old(System()), op, done, events)
    {
      match op {
        case CreateTask(id, assetId, json, now) =>
          var r, out := CreateTask(id, assetId, json, now);
          done, events := r.Done?, out;
        case PatchTask(id, json, now) =>
          var r, out := PatchTask(id, json, now);
          done, events := r.Done?, out;
        case Transition(id, status, json, now) =>
          var r, out := TransitionTaskStatus(id, status, json, now);
          done, events := r.Done?, out;
        case DeleteTask(id) =>
          var r, out := DeleteTask(id);
          done, events := r.Done?, out;
      }
    }

    method ServeObjectCall(op: Op) returns (done: bool, events: seq<Event>)
      requires IsObjectCall(op) && forall o | o in stores.objects :: stores.objects[o].id == o
      modifies stores
      ensures Did(old(System()), op, done, events)
    {
      match op {
        case CreateObject(id, typ, ownerType, ownerId, json, now) =>
          var r, out := CreateObject(id, typ, ownerType, ownerId, json, now);
          done, events := r.Done?, out;
        case PatchObject(id, newType, json, now) =>
          var r, out := PatchObject(id, newType, json, now);
          done, events := r.Done?, out;
        case DeleteObject(id) =>
          var r, out := DeleteObject(id);
          done, events := r.Done?, out;
      }
    }

    method ServeFileCall(op: Op) returns (done: bool, events: seq<Event>)
      requires IsFileCall(op)
      modifies stores
      ensures Did(old(System()), op, done, events)
    {
      match op {
        case UploadFile(k, src, maxBytes, now) =>
          var r, out := UploadObjectFile(k, src, maxBytes, now);
          done, events := r.Done?, out;
        case AppendFile(k, src, maxBytes, now) =>
          var r, out := AppendObjectFile(k, src, maxBytes, now);
          done, events := r.Done?, out;
        case DeleteFile(k) =>
          var r, out := DeleteObjectFile(k);
          done, events := r.Done?, out;
      }
    }

    /** One call, without its publishing. */
    method Perform(op: Op) returns (done: bool, events: seq<Event>)
      requires WellKept(stores.State())
      modifies stores, commands
      ensures Did(old(System()), op, done, events)
    {
      events := [];
      if IsEntityCall(op) {
        done, events := ServeEntityCall(op);
      } else if IsObservationCall(op) {
        done, events := ServeObservationCall(op);
      } else if IsTaskCall(op) {
        done, events := ServeTaskCall(op);
      } else if IsObjectCall(op) {
        done, events := ServeObjectCall(op);
      } else if IsFileCall(op) {
        done, events := ServeFileCall(op);
      } else if op.Activate? {
        done := Activate(op.raw, op.now);
      } else {
        Deactivate();
        done := true;
      }
    }

    ghost function TheWhole(): Whole<Channel<Event>>
      reads stores, commands, hub, hub.channels
    {
      Whole(System(), hub.View())
    }

    method Announce(events: seq<Event>)
      requires hub.Valid() && |events| <= 1
      modifies hub, hub.channels
      ensures hub.Valid() && hub.channels == old(hub.channels)
      ensures hub.View() == if events == [] then old(hub.View()) else Published(old(hub.View()), events[0])
    {
      if events != [] {
        hub.Publish(events[0]);
      }
    }

    method PerformWell(op: Op) returns (done: bool, events: seq<Event>)
      requires WellKept(stores.State())
      modifies stores, commands
      ensures WellKept(stores.State()) && Did(old(System()), op, done, events) && |events| <= 1
    {
      ghost var before := System();
      done, events := Perform(op);
      StepKeepsWell(env, before, op);
      OneEventAtMost(env, before, op);
    }

    /** One call with its publishing; by `ServedIsARun` a run of the machine that `Replica` is about. */
    method Serve(op: Op) returns (done: bool)
      requires WellKept(stores.State()) && hub.Valid()
      modifies stores, commands, hub, hub.channels
      ensures WellKept(stores.State()) && hub.Valid() && hub.channels == old(hub.channels)
      ensures done <==> Accepts(env, old(System()), op)
      ensures Served(env, old(TheWhole()), op, TheWhole())
    {
      var events;
      done, events := PerformWell(op);
      Announce(events);
    }

    /** Any sequence of calls is a run of the machine, so what is proved of runs holds of the store. */
    method ServeAll(ops: seq<Op>)
      requires WellKept(stores.State()) && hub.Valid()
      modifies stores, commands, hub, hub.channels
      ensures WellKept(stores.State()) && hub.Valid()
      ensures System() == Run(env, old(System()), ops)
    {
      var rest := ops;
      while rest != []
        invariant WellKept(stores.State()) && hub.Valid() && hub.channels == old(hub.channels)
        invariant Run(env, System(), rest) == Run(env, old(System()), ops)
      {
        var done := Serve(rest[0]);
        rest := rest[1..];
      }
    }
  }

  lemma OneEventAtMost(env: Env, s: Sys, op: Op)
    ensures |Emits(env, s, op)| <= 1
  {
  }
}
