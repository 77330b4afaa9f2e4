/** What each call of the service asks for, stores and announces, in the terms of its arguments and of the stored
    records. */
module CallMeaning {
  import opened CatalogFiles
  import opened Integrity
  import opened Json
  import opened ObjectFiles
  import opened Paths
  import opened Records
  import opened Replica
  import opened Requirements
  import opened SchemaMeaning
  import opened ServiceSpec
  import opened TaskCommands
  import opened TaskJson
  import opened TaskLife

  // ---------------------------------------------------------------- entities

  lemma EntityCreated(env: Env, s: Sys, id: string, typ: string, subtype: string, alias: string,
                      json: Option<JsonMap>, now: int)
    ensures var op := Op.CreateEntity(id, typ, subtype, alias, json, now); var s' := Apply(env, s, op);
            && (Accepts(env, s, op) <==> IsValidId(id) && id !in s.store.entities && EntityIsSound(env, typ, Normal(json)))
            && (Accepts(env, s, op) ==>
                  && s' == s.(store := s.store.(entities := s'.store.entities))
                  && s'.store.entities == s.store.entities[id := Entity(id, typ, subtype, alias, Normal(json), now, now)]
                  && Emits(env, s, op) == [EntitySaved(true, Entity(id, typ, subtype, alias, Normal(json), now, now))])
  {
    EntityIff(env, typ, Normal(json));
  }

  /** The patched record, field by field. */
  ghost predicate IsEntityPatch(e: Entity, subtype: Option<string>, alias: Option<string>, json: JsonMap, now: int,
                                e': Entity) {
    && e'.id == e.id && e'.typ == e.typ && e'.createdAt == e.createdAt && e'.updatedAt == now
    && (subtype.Some? ==> e'.subtype == subtype.value) && (subtype.None? ==> e'.subtype == e.subtype)
    && (alias.Some? ==> e'.alias == alias.value) && (alias.None? ==> e'.alias == e.alias)
    && IsPatched(e.json, json, e'.json)
  }

  lemma EntityPatched(env: Env, s: Sys, id: string, subtype: Option<string>, alias: Option<string>,
                      json: Option<JsonMap>, now: int)
    ensures var op := Op.PatchEntity(id, subtype, alias, json, now); var s' := Apply(env, s, op);
            Accepts(env, s, op) ==>
              && id in s.store.entities && id in s'.store.entities
              && IsEntityPatch(s.store.entities[id], subtype, alias, Normal(json), now, s'.store.entities[id])
              && s' == s.(store := s.store.(entities := s.store.entities[id := s'.store.entities[id]]))
              && Emits(env, s, op) == [EntitySaved(false, s'.store.entities[id])]
  {
    if id in s.store.entities {
      var e := s.store.entities[id];
      SectionsArePatched(e.json, Normal(json), WithSections(e.json, Normal(json)));
    }
  }

  lemma EntityPatchIsAccepted(env: Env, s: Sys, id: string, subtype: Option<string>, alias: Option<string>,
                              json: Option<JsonMap>, now: int, next: Entity)
    requires id in s.store.entities && IsEntityPatch(s.store.entities[id], subtype, alias, Normal(json), now, next)
    ensures Accepts(env, s, Op.PatchEntity(id, subtype, alias, json, now)) <==> EntityIsSound(env, next.typ, next.json)
  {
    SectionsArePatched(s.store.entities[id].json, Normal(json), next.json);
    EntityIff(env, next.typ, next.json);
  }

  // ---------------------------------------------------------------- observations

  lemma ObservationCreated(env: Env, s: Sys, id: string, assetId: string, json: Option<JsonMap>, now: int)
    ensures var op := Op.CreateObservation(id, assetId, json, now); var s' := Apply(env, s, op);
            var o := Observation(id, assetId, Normal(json), now, now);
            && (Accepts(env, s, op) <==>
                  && IsValidId(id) && id !in s.store.observations
                  && assetId in s.store.entities && s.store.entities[assetId].typ == "asset"
                  && ObservationIsSound(env, s.store.objects, id, Normal(json)))
            && (Accepts(env, s, op) ==>
                  && s' == s.(store := s.store.(observations := s.store.observations[id := o]))
                  && Emits(env, s, op) == [ObservationSaved(true, o)])
  {
    ObservationIff(env, s.store.objects, id, Normal(json));
  }

  ghost predicate IsObservationPatch(o: Observation, json: JsonMap, now: int, o': Observation) {
    o' == o.(json := o'.json, updatedAt := now) && IsPatched(o.json, json, o'.json)
  }

  lemma ObservationPatched(env: Env, s: Sys, id: string, json: Option<JsonMap>, now: int)
    ensures var op := Op.PatchObservation(id, json, now); var s' := Apply(env, s, op);
            Accepts(env, s, op) ==>
              && id in s.store.observations && id in s'.store.observations
              && IsObservationPatch(s.store.observations[id], Normal(json), now, s'.store.observations[id])
              && s' == s.(store := s.store.(observations := s.store.observations[id := s'.store.observations[id]]))
              && Emits(env, s, op) == [ObservationSaved(false, s'.store.observations[id])]
  {
    if id in s.store.observations {
      var o := s.store.observations[id];
      SectionsArePatched(o.json, Normal(json), WithSections(o.json, Normal(json)));
    }
  }

  lemma ObservationPatchIsAccepted(env: Env, s: Sys, id: string, json: Option<JsonMap>, now: int, next: Observation)
    requires id in s.store.observations && IsObservationPatch(s.store.observations[id], Normal(json), now, next)
    ensures Accepts(env, s, Op.PatchObservation(id, json, now)) <==> ObservationIsSound(env, s.store.objects, id, next.json)
  {
    SectionsArePatched(s.store.observations[id].json, Normal(json), next.json);
    ObservationIff(env, s.store.objects, id, next.json);
  }

  // ---------------------------------------------------------------- tasks

  /** The catalogs the service resolves task commands against were loaded from files whose numbers Go can hold. */
  ghost predicate IsLoaded(env: Env, s: Sys) {
    FromLoad(env, s) && ParsesToGo(env)
  }

  lemma TaskCreated(env: Env, s: Sys, id: string, assetId: string, json: Option<JsonMap>, now: int)
    requires IsLoaded(env, s) && AllRepresentable(ParametersIn(Normal(json)))
    ensures var op := Op.CreateTask(id, assetId, json, now); var s' := Apply(env, s, op);
            && (Accepts(env, s, op) <==>
                  && IsValidId(id) && id !in s.store.tasks
                  && assetId in s.store.entities && s.store.entities[assetId].typ == "asset" && s.active.Some?
                  && exists i :: 0 <= i < |s.active.value.commands| && Asks(env, Normal(json), s.active.value.commands[i])
                                 && Supports(s.store.entities[assetId], s.active.value.commands[i].typ))
            && (Accepts(env, s, op) ==>
                  var t := Task(id, "pending", assetId, s.active.value.objectId, Normal(json), now, now);
                  && s' == s.(store := s.store.(tasks := s.store.tasks[id := t]))
                  && Emits(env, s, op) == [TaskSaved(true, t)])
  {
    if s.active.Some? && IsAsset(s.store, assetId) {
      AskedAndSupportedIff(env, s.active.value.raw, Normal(json), s.store.entities[assetId]);
    }
  }

  /** The task asks for one of the commands, and the asset supports that one. */
  ghost predicate AsksForSupported(env: Env, json: JsonMap, commands: seq<Command>, asset: Entity) {
    exists i :: 0 <= i < |commands| && Asks(env, json, commands[i]) && Supports(asset, commands[i].typ)
  }

  lemma NameIsCommandType(json: JsonMap, typ: string)
    requires Names(json, typ)
    ensures CommandTypeOf(json) == typ
  {
  }

  lemma AskedAndSupportedIff(env: Env, raw: Bytes, json: JsonMap, asset: Entity)
    requires LoadCatalog(env, raw).Some? && ParsesToGo(env) && AllRepresentable(ParametersIn(json))
    ensures var commands := LoadCatalog(env, raw).value.commands;
            TaskCommandOk(env, json, commands) && AssetSupports(asset, CommandTypeOf(json))
            <==> AsksForSupported(env, json, commands, asset)
  {
    var commands := LoadCatalog(env, raw).value.commands;
    LoadedTaskCommandOkIff(env, json, raw);
    SupportsIff(asset, CommandTypeOf(json));
    forall i | 0 <= i < |commands| && Asks(env, json, commands[i]) ensures commands[i].typ == CommandTypeOf(json) {
      NameIsCommandType(json, commands[i].typ);
    }
  }

  lemma PendingPatchAsks(env: Env, s: Sys, id: string, json: Option<JsonMap>, now: int)
    requires id in s.store.tasks && s.store.tasks[id].status == "pending"
    ensures var t := s.store.tasks[id]; var next := WithSections(t.json, Normal(json));
            Accepts(env, s, Op.PatchTask(id, json, now)) <==>
            && PinnedCommandOk(env, s, t, next)
            && t.assetId in s.store.entities && AssetSupports(s.store.entities[t.assetId], CommandTypeOf(next))
  {
  }

  /** A patch while the task is pending merges sections and checks the command and the asset again. */
  lemma PendingPatchIsAccepted(env: Env, s: Sys, id: string, json: Option<JsonMap>, now: int, next: JsonMap)
    requires IsLoaded(env, s) && id in s.store.tasks && s.store.tasks[id].status == "pending"
    requires IsPatched(s.store.tasks[id].json, Normal(json), next) && AllRepresentable(ParametersIn(next))
    ensures var t := s.store.tasks[id]; var pinned := LoadPinned(env, s, t.pin);
            Accepts(env, s, Op.PatchTask(id, json, now)) <==>
            && pinned.Some? && t.assetId in s.store.entities
            && AsksForSupported(env, next, pinned.value.commands, s.store.entities[t.assetId])
  {
    var t := s.store.tasks[id];
    PendingPatchAsks(env, s, id, json, now);
    SectionsArePatched(t.json, Normal(json), next);
    if LoadPinned(env, s, t.pin).Some? && t.assetId in s.store.entities {
      var raw := PinnedIsLoaded(env, s, t.pin);
      AskedAndSupportedIff(env, raw, next, s.store.entities[t.assetId]);
    }
  }

  /** The pinned catalog is there, and the task asks for one of its commands. */
  ghost predicate IsPinnedTo(env: Env, s: Sys, t: Task) {
    LoadPinned(env, s, t.pin).Some? && AsksForOne(env, t.json, LoadPinned(env, s, t.pin).value.commands)
  }

  lemma ReportsKeepAsking(env: Env, json: JsonMap, patch: JsonMap, out: JsonMap, commands: seq<Command>)
    requires Restricted(json, patch) == MergeResult.Merged(out)
    ensures SameCommand(json, out) ==> (AsksForOne(env, out, commands) <==> AsksForOne(env, json, commands))
    ensures AsksForOne(env, json, commands) ==> SameCommand(json, out)
    ensures SameCommand(json, out) ==> ParametersIn(out) == ParametersIn(json)
  {
    RestrictedIsConfined(json, patch, out);
    GuardFiresIff(json, patch, out);
    assert "command" !in REPORTABLE && "parameters" !in REPORTABLE;
    if SameCommand(json, out) {
      forall i | 0 <= i < |commands| ensures Asks(env, out, commands[i]) <==> Asks(env, json, commands[i]) {
        assert Names(out, commands[i].typ) <==> Names(json, commands[i].typ);
      }
    }
  }

  /** Out of pending: a restricted merge that is valid for the pinned catalog, in terms of the task as it is. */
  lemma RestrictedMergeOkIff(env: Env, s: Sys, t: Task, patch: JsonMap)
    requires IsLoaded(env, s) && AllRepresentable(ParametersIn(t.json))
    ensures var m := Restricted(t.json, patch);
            m.Merged? && SameCommand(t.json, m.json) && PinnedCommandOk(env, s, t, m.json)
            <==> ReportsOnly(t.json, patch) && IsPinnedTo(env, s, t)
  {
    ReportsAreMerged(t.json, patch);
    var m := Restricted(t.json, patch);
    if m.Merged? && LoadPinned(env, s, t.pin).Some? {
      var raw := PinnedIsLoaded(env, s, t.pin);
      ReportsKeepAsking(env, t.json, patch, m.json, LoadPinned(env, s, t.pin).value.commands);
      if SameCommand(t.json, m.json) {
        LoadedTaskCommandOkIff(env, m.json, raw);
      }
    }
  }

  /** Out of pending a patch is accepted exactly if it names reports only and the task is still pinned. */
  lemma LaterPatchIsAccepted(env: Env, s: Sys, id: string, json: Option<JsonMap>, now: int)
    requires IsLoaded(env, s) && id in s.store.tasks && s.store.tasks[id].status != "pending"
    requires AllRepresentable(ParametersIn(s.store.tasks[id].json))
    ensures var t := s.store.tasks[id];
            Accepts(env, s, Op.PatchTask(id, json, now)) <==> ReportsOnly(t.json, Normal(json)) && IsPinnedTo(env, s, t)
  {
    RestrictedMergeOkIff(env, s, s.store.tasks[id], Normal(json));
  }

  predicate IsEdge(from: string, to: string) {
    (from == "pending" && to == "acknowledged") || (from == "acknowledged" && (to == "completed" || to == "failed"))
  }

  lemma TransitionOkIff(env: Env, s: Sys, t: Task, status: string, json: Option<JsonMap>)
    requires IsLoaded(env, s) && AllRepresentable(ParametersIn(t.json))
    ensures TransitionOk(env, s, t, status, json) <==>
            IsEdge(t.status, status) && ReportsOnly(t.json, Normal(json)) && IsPinnedTo(env, s, t)
  {
    RestrictedMergeOkIff(env, s, t, Normal(json));
  }

  lemma TransitionIsAccepted(env: Env, s: Sys, id: string, status: string, json: Option<JsonMap>, now: int)
    requires IsLoaded(env, s) && id in s.store.tasks && AllRepresentable(ParametersIn(s.store.tasks[id].json))
    ensures var t := s.store.tasks[id];
            Accepts(env, s, Op.Transition(id, status, json, now)) <==>
            t.status == status || (IsEdge(t.status, status) && ReportsOnly(t.json, Normal(json)) && IsPinnedTo(env, s, t))
  {
    TransitionOkIff(env, s, s.store.tasks[id], status, json);
  }

  /** One task saved, with a status, a new JSON and a new time, and told. */
  ghost predicate SavesTask(s: Sys, s': Sys, id: string, status: string, now: int, events: seq<Event>) {
    && id in s.store.tasks && id in s'.store.tasks
    && var t, t' := s.store.tasks[id], s'.store.tasks[id];
    && t' == t.(status := status, json := t'.json, updatedAt := now)
    && s' == s.(store := s.store.(tasks := s.store.tasks[id := t'])) && events == [TaskSaved(false, t')]
  }

  lemma TaskCallsTell(env: Env, s: Sys, op: Op)
    requires Accepts(env, s, op) && (op.PatchTask? || (op.Transition? && s.store.tasks[op.id].status != op.status))
    ensures op.id in Apply(env, s, op).store.tasks
    ensures Emits(env, s, op) == [TaskSaved(false, Apply(env, s, op).store.tasks[op.id])]
  {
  }

  lemma SavedTaskIs(s: Sys, id: string, json: JsonMap, status: string, now: int)
    requires id in s.store.tasks
    ensures var t' := Saved(s.store.tasks[id], json, now).(status := status);
            SavesTask(s, WithTask(s, id, t'), id, status, now, [TaskSaved(false, t')])
  {
  }

  /** A patched task has the patch's sections while pending, and after that the patch's reports. */
  lemma TaskPatched(env: Env, s: Sys, id: string, json: Option<JsonMap>, now: int)
    requires Accepts(env, s, Op.PatchTask(id, json, now))
    ensures var op := Op.PatchTask(id, json, now); var s' := Apply(env, s, op); var t := s.store.tasks[id];
            && SavesTask(s, s', id, t.status, now, Emits(env, s, op))
            && (t.status == "pending" ==> IsPatched(t.json, Normal(json), s'.store.tasks[id].json))
            && (t.status != "pending" ==> StoresReports(t.json, Normal(json), s'.store.tasks[id].json))
  {
    var t := s.store.tasks[id];
    PatchSaves(env, s, id, json, now);
    TaskCallsTell(env, s, Op.PatchTask(id, json, now));
    SavedTaskIs(s, id, PatchedJson(t, json).json, t.status, now);
    SectionsArePatched(t.json, Normal(json), WithSections(t.json, Normal(json)));
    if t.status != "pending" {
      ReportsAreStored(t.json, Normal(json), Restricted(t.json, Normal(json)).json);
    }
  }

  /** A moved task has the patch's reports; a transition to the current status does nothing. */
  lemma TaskMoved(env: Env, s: Sys, id: string, status: string, json: Option<JsonMap>, now: int)
    requires Accepts(env, s, Op.Transition(id, status, json, now))
    ensures var op := Op.Transition(id, status, json, now); var s' := Apply(env, s, op); var t := s.store.tasks[id];
            if t.status == status then s' == s && Emits(env, s, op) == []
            else SavesTask(s, s', id, status, now, Emits(env, s, op))
                 && StoresReports(t.json, Normal(json), s'.store.tasks[id].json)
  {
    var t := s.store.tasks[id];
    if t.status == status {
      QuietCallsChangeNothing(env, s, Op.Transition(id, status, json, now));
    } else {
      TransitionSaves(env, s, id, status, json, now);
      TaskCallsTell(env, s, Op.Transition(id, status, json, now));
      SavedTaskIs(s, id, Restricted(t.json, Normal(json)).json, status, now);
      ReportsAreStored(t.json, Normal(json), Restricted(t.json, Normal(json)).json);
    }
  }

  // ---------------------------------------------------------------- objects

  lemma ObjectCreated(env: Env, s: Sys, id: string, typ: string, ownerType: string, ownerId: string,
                      json: Option<JsonMap>, now: int)
    ensures IsTrimmed(typ, TrimSpace(typ))
    ensures var op := Op.CreateObject(id, typ, ownerType, ownerId, json, now); var trimmed := TrimSpace(typ);
            var o := Object(id, trimmed, ownerType, ownerId, Normal(json), now, now);
            && (Accepts(env, s, op) <==>
                  id !in s.store.objects && ObjectIsSound(s.store, id, trimmed, ownerType, ownerId, Normal(json)))
            && (Accepts(env, s, op) ==>
                  && Apply(env, s, op) == s.(store := s.store.(objects := s.store.objects[id := o]))
                  && Emits(env, s, op) == [ObjectSaved(true, o)])
  {
    TrimSpaceIs(typ);
    TrimmingAgain(typ);
    ObjectIff(s.store, id, TrimSpace(typ), ownerType, ownerId, Normal(json));
  }

  ghost predicate IsObjectPatch(o: Object, newType: Option<string>, json: JsonMap, now: int, o': Object) {
    && o' == o.(typ := o'.typ, json := o'.json, updatedAt := now)
    && (newType.Some? ==> IsTrimmed(newType.value, o'.typ)) && (newType.None? ==> o'.typ == o.typ)
    && IsPatched(o.json, json, o'.json)
  }

  lemma ObjectPatched(env: Env, s: Sys, id: string, newType: Option<string>, json: Option<JsonMap>, now: int)
    requires forall o | o in s.store.objects :: s.store.objects[o].id == o
    ensures var op := Op.PatchObject(id, newType, json, now); var s' := Apply(env, s, op);
            Accepts(env, s, op) ==>
              && id in s.store.objects && id in s'.store.objects
              && var o, o' := s.store.objects[id], s'.store.objects[id];
              && IsObjectPatch(o, newType, Normal(json), now, o')
              && ObjectIsSound(s.store, id, TrimSpace(o'.typ), o.ownerType, o.ownerId, o'.json)
              && s' == s.(store := s.store.(objects := s.store.objects[id := o']))
              && Emits(env, s, op) == [ObjectSaved(false, o')]
  {
    if id in s.store.objects {
      var o := s.store.objects[id];
      SectionsArePatched(o.json, Normal(json), WithSections(o.json, Normal(json)));
      if newType.Some? {
        TrimSpaceIs(newType.value);
      }
      ObjectIff(s.store, id, PatchedType(o, newType), o.ownerType, o.ownerId, WithSections(o.json, Normal(json)));
    }
  }

  // ---------------------------------------------------------------- files

  /** At least one byte, all of it readable, and within the request's limit, or 16 MiB if it has none. */
  predicate IsBody(src: Source, maxBytes: int) {
    !src.fails && 1 <= |Content(src)| <= if maxBytes > 0 then maxBytes else 16777216
  }

  lemma FileUploaded(env: Env, s: Sys, k: Key, src: Source, maxBytes: int, now: int)
    requires FilesOk(s.store)
    ensures var op := Op.UploadFile(k, src, maxBytes, now);
            && (Accepts(env, s, op) <==>
                  && k.objectId in s.store.objects && IsValidId(k.objectId) && IsValidId(k.fileId)
                  && k !in s.store.files && IsBody(src, maxBytes))
            && (Accepts(env, s, op) ==>
                  var f := ObjectFile(k, "objects/" + k.objectId + "/" + k.fileId, |Content(src)|, now, now);
                  && Apply(env, s, op) ==
                     s.(store := s.store.(files := s.store.files[k := f], bytes := s.store.bytes[k := Content(src)]))
                  && Emits(env, s, op) == [ObjectSaved(false, s.store.objects[k.objectId])])
  {
    if k !in s.store.files && IsValidId(k.objectId) && IsValidId(k.fileId) {
      PathScanNeverFires(s.store, k);
    }
  }

  /** The body goes behind the bytes that were there. */
  lemma FileAppended(env: Env, s: Sys, k: Key, src: Source, maxBytes: int, now: int)
    requires FilesOk(s.store)
    ensures var op := Op.AppendFile(k, src, maxBytes, now);
            && (Accepts(env, s, op) <==> k in s.store.files && IsBody(src, maxBytes))
            && (Accepts(env, s, op) ==>
                  var all := s.store.bytes[k] + Content(src);
                  var f := s.store.files[k].(size := |all|, updatedAt := now);
                  && Apply(env, s, op) ==
                     s.(store := s.store.(files := s.store.files[k := f], bytes := s.store.bytes[k := all]))
                  && Emits(env, s, op) == [ObjectSaved(false, s.store.objects[k.objectId])])
  {
  }

  lemma FileDeleted(env: Env, s: Sys, k: Key)
    requires FilesOk(s.store)
    ensures var op := Op.DeleteFile(k);
            && (Accepts(env, s, op) <==> k in s.store.files)
            && (Accepts(env, s, op) ==>
                  && Apply(env, s, op) == s.(store := s.store.(files := s.store.files - {k}, bytes := s.store.bytes - {k}))
                  && Emits(env, s, op) == [ObjectSaved(false, s.store.objects[k.objectId])])
  {
  }

  // ---------------------------------------------------------------- activation

  /** An activated catalog has an object, which is made for it if there was none, and a file with its bytes. */
  lemma CatalogActivated(env: Env, s: Sys, raw: Bytes, now: int)
    requires FilesOk(s.store)
    ensures var op := Op.Activate(raw, now); var s' := Apply(env, s, op); var st, st' := s.store, s'.store;
            Accepts(env, s, op) ==>
              && Emits(env, s, op) == [] && LoadCatalog(env, raw).Some? && s'.active == LoadCatalog(env, raw)
              && var c := LoadCatalog(env, raw).value; var k := Key(c.objectId, "catalog-json");
              && st' == st.(objects := st'.objects, files := st'.files, bytes := st'.bytes)
              && st'.objects == (if c.objectId in st.objects then st.objects
                                 else st.objects[c.objectId := Object(c.objectId, "command_catalog", "system",
                                        "active_command_catalog",
                                        map["catalog_id" := Str(c.catalogId), "version" := Str(c.version)], now, now)])
              && k in st'.files && k in st'.bytes && st'.bytes[k] == raw && st'.files[k].size == |raw|
              && st'.bytes == st.bytes[k := raw] && st'.files == st.files[k := st'.files[k]]
  {
    if LoadCatalog(env, raw).Some? {
      MaterializedIff(s.store, LoadCatalog(env, raw).value, now);
    }
  }

  // ---------------------------------------------------------------- deletions

  lemma EntityDeletedMeans(env: Env, s: Sys, id: string)
    ensures var op := Op.DeleteEntity(id);
            && (Accepts(env, s, op) <==>
                  && id in s.store.entities
                  && (forall t | t in s.store.tasks :: s.store.tasks[t].assetId != id)
                  && (forall o | o in s.store.observations :: s.store.observations[o].assetId != id)
                  && (forall o | o in s.store.objects ::
                        !(s.store.objects[o].ownerType == "entity" && s.store.objects[o].ownerId == id)))
            && (Accepts(env, s, op) ==>
                  && Apply(env, s, op) == s.(store := s.store.(entities := s.store.entities - {id}))
                  && Emits(env, s, op) == [EntityDeleted(id)])
  {
  }

  /** The observation goes with the objects it owns, and they with their files; everything else stays. */
  lemma ObservationDeletedMeans(env: Env, s: Sys, id: string)
    requires FilesOk(s.store)
    ensures var op := Op.DeleteObservation(id); var st, st' := s.store, Apply(env, s, op).store;
            && (Accepts(env, s, op) <==> id in st.observations)
            && (Accepts(env, s, op) ==>
                  && st' == st.(observations := st.observations - {id}, objects := st'.objects, files := st'.files,
                                bytes := st'.bytes)
                  && (forall o :: o in st'.objects <==>
                        o in st.objects && !(st.objects[o].ownerType == "observation" && st.objects[o].ownerId == id))
                  && (forall o | o in st'.objects :: st'.objects[o] == st.objects[o])
                  && (forall k :: k in st'.files <==> k in st.files && k.objectId in st'.objects)
                  && (forall k | k in st'.files :: st'.files[k] == st.files[k] && st'.bytes[k] == st.bytes[k])
                  && Emits(env, s, op) == [ObservationDeleted(id)])
  {
    if id in s.store.observations {
      var gone := ObjectsOfObservation(s.store, id);
      CascadeIs(s.store.(observations := s.store.observations - {id}), gone);
    }
  }

  lemma CascadeIs(st: StoreState, ids: set<string>)
    requires FilesOk(st)
    ensures var st' := WithoutObjects(st, ids);
            && st' == st.(objects := st.objects - ids, files := st'.files, bytes := st'.bytes)
            && (forall k :: k in st'.files <==> k in st.files && k.objectId !in ids)
            && (forall k | k in st'.files :: st'.files[k] == st.files[k] && k in st'.bytes && st'.bytes[k] == st.bytes[k])
  {
  }

  lemma TaskDeletedMeans(env: Env, s: Sys, id: string)
    ensures var op := Op.DeleteTask(id);
            && (Accepts(env, s, op) <==>
                  && id in s.store.tasks
                  && (forall o | o in s.store.objects ::
                        !(s.store.objects[o].ownerType == "task" && s.store.objects[o].ownerId == id)))
            && (Accepts(env, s, op) ==>
                  && Apply(env, s, op) == s.(store := s.store.(tasks := s.store.tasks - {id}))
                  && Emits(env, s, op) == [TaskDeleted(id)])
  {
  }

  /** An object goes with its files, unless a task pins it or it is the active catalog's. */
  lemma ObjectDeletedMeans(env: Env, s: Sys, id: string)
    requires FilesOk(s.store)
    ensures var op := Op.DeleteObject(id); var st, st' := s.store, Apply(env, s, op).store;
            && (Accepts(env, s, op) <==>
                  && id in st.objects && (forall t | t in st.tasks :: st.tasks[t].pin != id)
                  && (s.active.Some? ==> s.active.value.objectId != id))
            && (Accepts(env, s, op) ==>
                  && st' == st.(objects := st.objects - {id}, files := st'.files, bytes := st'.bytes)
                  && (forall k :: k in st'.files <==> k in st.files && k.objectId != id)
                  && (forall k | k in st'.files ::
                        st'.files[k] == st.files[k] && k in st'.bytes && st'.bytes[k] == st.bytes[k])
                  && Emits(env, s, op) == [ObjectDeleted(id)])
  {
    CascadeIs(s.store, {id});
  }

  // ---------------------------------------------------------------- first appearances

  datatype Kind = OfEntity | OfObservation | OfTask

  predicate Has(s: Sys, kind: Kind, id: string) {
    match kind
    case OfEntity => id in s.store.entities
    case OfObservation => id in s.store.observations
    case OfTask => id in s.store.tasks
  }

  /** The event that tells the record as it is now, as a new one or as a changed one. */
  function Telling(s: Sys, kind: Kind, id: string, created: bool): Event
    requires Has(s, kind, id)
  {
    match kind
    case OfEntity => EntitySaved(created, s.store.entities[id])
    case OfObservation => ObservationSaved(created, s.store.observations[id])
    case OfTask => TaskSaved(created, s.store.tasks[id])
  }

  lemma EntityAppears(env: Env, s: Sys, op: Op, id: string)
    requires id in Apply(env, s, op).store.entities
    ensures id !in s.store.entities ==> Emits(env, s, op) == [EntitySaved(true, Apply(env, s, op).store.entities[id])]
    ensures id in s.store.entities && s.store.entities[id] != Apply(env, s, op).store.entities[id] ==>
              Emits(env, s, op) == [EntitySaved(false, Apply(env, s, op).store.entities[id])]
  {
    if IsObservationCall(op) {
      ObservationCallsStayThere(env, s, op);
    } else if IsTaskCall(op) {
      TaskCallsStayThere(env, s, op);
    } else if IsObjectCall(op) {
      ObjectCallsStayThere(env, s, op);
    } else if IsFileCall(op) {
      FileCallsStayThere(env, s, op);
    } else if !IsEntityCall(op) {
      ActivationsStayThere(env, s, op);
    }
  }

  lemma ObservationAppears(env: Env, s: Sys, op: Op, id: string)
    requires id in Apply(env, s, op).store.observations
    ensures id !in s.store.observations ==>
              Emits(env, s, op) == [ObservationSaved(true, Apply(env, s, op).store.observations[id])]
    ensures id in s.store.observations && s.store.observations[id] != Apply(env, s, op).store.observations[id] ==>
              Emits(env, s, op) == [ObservationSaved(false, Apply(env, s, op).store.observations[id])]
  {
    if IsEntityCall(op) {
      EntityCallsStayThere(env, s, op);
    } else if IsTaskCall(op) {
      TaskCallsStayThere(env, s, op);
    } else if IsObjectCall(op) {
      ObjectCallsStayThere(env, s, op);
    } else if IsFileCall(op) {
      FileCallsStayThere(env, s, op);
    } else if !IsObservationCall(op) {
      ActivationsStayThere(env, s, op);
    }
  }

  lemma TaskAppears(env: Env, s: Sys, op: Op, id: string)
    requires id in Apply(env, s, op).store.tasks
    ensures id !in s.store.tasks ==> Emits(env, s, op) == [TaskSaved(true, Apply(env, s, op).store.tasks[id])]
    ensures id in s.store.tasks && s.store.tasks[id] != Apply(env, s, op).store.tasks[id] ==>
              Emits(env, s, op) == [TaskSaved(false, Apply(env, s, op).store.tasks[id])]
  {
    if !IsTaskCall(op) {
      TasksStay(env, s, op);
    }
  }

  /** Objects are told likewise, but for the one an activation creates. */
  lemma ObjectAppears(env: Env, s: Sys, op: Op, id: string)
    requires !op.Activate? && id !in s.store.objects && id in Apply(env, s, op).store.objects
    ensures Emits(env, s, op) == [ObjectSaved(true, Apply(env, s, op).store.objects[id])]
  {
    if IsEntityCall(op) {
      EntityCallsStayThere(env, s, op);
    } else if IsTaskCall(op) {
      TaskCallsStayThere(env, s, op);
    } else if IsFileCall(op) {
      FileCallsStayThere(env, s, op);
    }
  }

  /** In one call: a record that appears is told as created, one that changes as changed. */
  lemma Appears(env: Env, s: Sys, op: Op, kind: Kind, id: string)
    requires Has(Apply(env, s, op), kind, id)
    ensures !Has(s, kind, id) ==> Emits(env, s, op) == [Telling(Apply(env, s, op), kind, id, true)]
    ensures Has(s, kind, id) && Telling(s, kind, id, true) != Telling(Apply(env, s, op), kind, id, true) ==>
              Emits(env, s, op) == [Telling(Apply(env, s, op), kind, id, false)]
  {
    match kind
    case OfEntity => EntityAppears(env, s, op, id);
    case OfObservation => ObservationAppears(env, s, op, id);
    case OfTask => TaskAppears(env, s, op, id);
  }

  lemma RunOnceMore(env: Env, s: Sys, ops: seq<Op>, n: nat)
    requires n < |ops|
    ensures Run(env, s, ops[..n + 1]) == Run(env, Apply(env, s, ops[0]), ops[1..][..n])
  {
    assert ops[..n + 1][1..] == ops[1..][..n];
  }

  /** Over any run: a record that was not there at its start and is at its end was told as created when it
      appeared. */
  lemma {:induction false} FirstAppearance(env: Env, s: Sys, ops: seq<Op>, kind: Kind, id: string) returns (n: nat)
    requires !Has(s, kind, id) && Has(Run(env, s, ops), kind, id)
    ensures n < |ops|
    ensures var before := Run(env, s, ops[..n]); var after := Apply(env, before, ops[n]);
            !Has(before, kind, id) && Has(after, kind, id) && Emits(env, before, ops[n]) == [Telling(after, kind, id, true)]
    decreases |ops|
  {
    var s' := Apply(env, s, ops[0]);
    if Has(s', kind, id) {
      n := 0;
      assert ops[..0] == [];
      Appears(env, s, ops[0], kind, id);
    } else {
      var later := FirstAppearance(env, s', ops[1..], kind, id);
      n := later + 1;
      RunOnceMore(env, s, ops, later);
    }
  }
}
