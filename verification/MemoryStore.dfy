/** The in-memory store: six maps, updated in place. */
module MemoryStores {
  import opened Json
  import opened ObjectFiles
  import opened Paths
  import opened Records
  import opened ServiceSpec
  import opened Listing

  /** How many entries of a map satisfy a condition. */
  method CountWhere<T>(m: map<string, T>, p: T -> bool) returns (n: nat)
    ensures n == |set k | k in m && p(m[k])|
    ensures n == 0 <==> forall k | k in m :: !p(m[k])
  {
    n := 0;
    var todo := m.Keys;
    ghost var found: set<string> := {};
    while todo != {}
      invariant todo <= m.Keys && n == |found|
      invariant found == set k | k in m && k !in todo && p(m[k])
    {
      var k :| k in todo;
      if p(m[k]) {
        n, found := n + 1, found + {k};
      }
      todo := todo - {k};
    }
    assert found == set k | k in m && p(m[k]);
    if n == 0 {
      assert forall k | k in m && p(m[k]) :: k in found;
    }
  }

  lemma SameCount<T>(m: map<string, T>, p: T -> bool, keys: set<string>)
    requires forall k :: k in keys <==> k in m && p(m[k])
    ensures |keys| == |set k | k in m && p(m[k])|
  {
    assert keys == set k | k in m && p(m[k]);
  }

  // ---------------------------------------------------------------- list filters; "" leaves a filter out

  predicate EntityListed(typ: string, e: Entity) {
    typ == "" || e.typ == typ
  }

  predicate ObservationListed(assetId: string, updatedAfter: Option<int>, o: Observation) {
    && (assetId == "" || o.assetId == assetId)
    && (updatedAfter.Some? ==> o.updatedAt >= updatedAfter.value)
  }

  predicate TaskListed(assetId: string, status: string, t: Task) {
    (assetId == "" || t.assetId == assetId) && (status == "" || t.status == status)
  }

  predicate ObjectListed(ownerType: string, ownerId: string, typ: string, o: Object) {
    (ownerType == "" || IsOwned(o, ownerType, ownerId)) && (typ == "" || o.typ == typ)
  }

  /** The store checks the owner again, but knows nothing of system owners. */
  predicate OwnerFound(s: StoreState, o: Object) {
    match o.ownerType
    case "entity" => o.ownerId in s.entities
    case "observation" => o.ownerId in s.observations
    case "task" => o.ownerId in s.tasks
    case _ => true
  }

  lemma ExistingOwnerIsFound(s: StoreState, o: Object)
    requires OwnerExists(s, o.ownerType, o.ownerId)
    ensures OwnerFound(s, o)
  {
  }

  predicate IsOwned(o: Object, ownerType: string, ownerId: string) {
    o.ownerType == ownerType && o.ownerId == ownerId
  }

  /** What can fail around a staged file; `resolve` stands for the path and link checks. */
  datatype StagedFaults = StagedFaults(lstat: bool, resolve: bool, open: bool, read: bool, remove: bool)

  class MemoryStore {
    var entities: map<string, Entity>
    var observations: map<string, Observation>
    var tasks: map<string, Task>
    var objects: map<string, Object>
    var files: map<Key, ObjectFile>
    var bytes: map<Key, Bytes>

    constructor ()
      ensures State() == StoreState(map[], map[], map[], map[], map[], map[])
    {
      entities, observations, tasks, objects, files, bytes := map[], map[], map[], map[], map[], map[];
    }

    function State(): StoreState
      reads this
    {
      StoreState(entities, observations, tasks, objects, files, bytes)
    }

    // -------------------------------------------------------------- entities

    method CreateEntity(e: Entity) returns (r: Reply<Entity>)
      modifies this`entities
      ensures r == if e.id in old(entities) then Refused(Clash("already_exists")) else Done(e)
      ensures entities == if r.Done? then old(entities)[e.id := e] else old(entities)
    {
      if e.id in entities {
        return Refused(Clash("already_exists"));
      }
      entities := entities[e.id := e];
      return Done(e);
    }

    method GetEntity(id: string) returns (r: Reply<Entity>)
      ensures r == if id in entities then Done(entities[id]) else Refused(Missing("entity"))
    {
      return if id in entities then Done(entities[id]) else Refused(Missing("entity"));
    }

    method UpdateEntity(e: Entity) returns (r: Reply<Entity>)
      modifies this`entities
      ensures r == if e.id in old(entities) then Done(e) else Refused(Missing("entity"))
      ensures entities == if r.Done? then old(entities)[e.id := e] else old(entities)
    {
      if e.id !in entities {
        return Refused(Missing("entity"));
      }
      entities := entities[e.id := e];
      return Done(e);
    }

    method DeleteEntity(id: string) returns (r: Reply<()>)
      modifies this`entities
      ensures r == if id in old(entities) then Done(()) else Refused(Missing("entity"))
      ensures entities == old(entities) - {id}
    {
      if id !in entities {
        return Refused(Missing("entity"));
      }
      entities := entities - {id};
      return Done(());
    }

    method CountEntityDependents(id: string) returns (byTask: nat, byObservation: nat, byObject: nat)
      ensures byTask == |set t | t in tasks && tasks[t].assetId == id|
      ensures byObservation == |set o | o in observations && observations[o].assetId == id|
      ensures byObject == |set o | o in objects && IsOwned(objects[o], "entity", id)|
      ensures byTask > 0 || byObservation > 0 || byObject > 0 <==> EntityHasDependents(State(), id)
    {
      byTask := CountWhere(tasks, (t: Task) => t.assetId == id);
      byObservation := CountWhere(observations, (o: Observation) => o.assetId == id);
      byObject := CountWhere(objects, (o: Object) => IsOwned(o, "entity", id));
      SameCount(tasks, (t: Task) => t.assetId == id, set t | t in tasks && tasks[t].assetId == id);
      SameCount(observations, (o: Observation) => o.assetId == id, set o | o in observations && observations[o].assetId == id);
      SameCount(objects, (o: Object) => IsOwned(o, "entity", id), set o | o in objects && IsOwned(objects[o], "entity", id));
    }

    method ListEntities(typ: string, page: Pagination) returns (items: seq<Entity>, total: nat)
      requires 0 <= page.offset && 0 <= page.limit
      requires forall k | k in entities :: entities[k].id == k
      ensures IsPageOf(items, total, entities, (x: Entity) => EntityListed(typ, x),
                       (x: Entity) => Stamp(x.updatedAt, x.id), page)
      ensures forall i, j | 0 <= i < j < |items| ::
                ComesBefore(items[i].updatedAt, items[i].id, items[j].updatedAt, items[j].id)
      ensures forall x | x in items :: x in entities.Values && (typ == "" || x.typ == typ)
      ensures forall x | x in entities.Values && (typ == "" || x.typ == typ) && x !in items && items != [] ::
                || ComesBefore(x.updatedAt, x.id, items[0].updatedAt, items[0].id)
                || ComesBefore(items[|items| - 1].updatedAt, items[|items| - 1].id, x.updatedAt, x.id)
    {
      items, total := ListMatching(entities, (x: Entity) => EntityListed(typ, x),
                                   (x: Entity) => Stamp(x.updatedAt, x.id), page);
    }

    // -------------------------------------------------------------- observations

    method CreateObservation(o: Observation) returns (r: Reply<Observation>)
      modifies this`observations
      ensures r == if o.id in old(observations) then Refused(Clash("already_exists")) else Done(o)
      ensures observations == if r.Done? then old(observations)[o.id := o] else old(observations)
    {
      if o.id in observations {
        return Refused(Clash("already_exists"));
      }
      observations := observations[o.id := o];
      return Done(o);
    }

    method GetObservation(id: string) returns (r: Reply<Observation>)
      ensures r == if id in observations then Done(observations[id]) else Refused(Missing("observation"))
    {
      return if id in observations then Done(observations[id]) else Refused(Missing("observation"));
    }

    method UpdateObservation(o: Observation) returns (r: Reply<Observation>)
      modifies this`observations
      ensures r == if o.id in old(observations) then Done(o) else Refused(Missing("observation"))
      ensures observations == if r.Done? then old(observations)[o.id := o] else old(observations)
    {
      if o.id !in observations {
        return Refused(Missing("observation"));
      }
      observations := observations[o.id := o];
      return Done(o);
    }

    /** The loop that drops an object's files. */
    method DropFiles(objectId: string)
      modifies this`files, this`bytes
      ensures var gone := set k | k in old(files) && old(files)[k].key.objectId == objectId;
              files == old(files) - gone && bytes == old(bytes) - gone
    {
      var todo := files.Keys;
      while todo != {}
        invariant todo <= old(files).Keys
        invariant var gone := set k | k in old(files) && k !in todo && old(files)[k].key.objectId == objectId;
                  files == old(files) - gone && bytes == old(bytes) - gone
      {
        var k :| k in todo;
        todo := todo - {k};
        if files[k].key.objectId == objectId {
          files, bytes := files - {k}, bytes - {k};
        }
      }
    }

    /** Deletes an observation, the objects it owns, and their files. */
    method DeleteObservation(id: string) returns (r: Reply<()>)
      modifies this`observations, this`objects, this`files, this`bytes
      ensures r == if id in old(observations) then Done(()) else Refused(Missing("observation"))
      ensures r.Refused? ==> State() == old(State())
      ensures r.Done? ==>
                State() == WithoutObjects(old(State()).(observations := old(observations) - {id}),
                                          ObjectsOfObservation(old(State()), id))
    {
      if id !in observations {
        return Refused(Missing("observation"));
      }
      observations := observations - {id};
      ghost var before := State();
      var owned := {};
      var todo := objects.Keys;
      while todo != {}
        invariant todo <= before.objects.Keys && owned == ObjectsOfObservation(before, id) - todo
        invariant State() == WithoutObjects(before, owned)
      {
        var objectId :| objectId in todo;
        todo := todo - {objectId};
        if IsOwned(objects[objectId], "observation", id) {
          objects := objects - {objectId};
          DropFiles(objectId);
          DroppingOneMore(before, owned, objectId);
          owned := owned + {objectId};
        }
      }
      assert owned == ObjectsOfObservation(old(State()), id);
      return Done(());
    }

    method ListSince(assetId: string, after: Option<int>, page: Pagination) returns (items: seq<Observation>, total: nat)
      requires 0 <= page.offset && 0 <= page.limit
      requires forall k | k in observations :: observations[k].id == k
      ensures IsPageOf(items, total, observations, (x: Observation) => ObservationListed(assetId, after, x),
                       (x: Observation) => Stamp(x.updatedAt, x.id), page)
      ensures forall i, j | 0 <= i < j < |items| ::
                ComesBefore(items[i].updatedAt, items[i].id, items[j].updatedAt, items[j].id)
      ensures forall x | x in items ::
                && x in observations.Values && (assetId == "" || x.assetId == assetId)
                && (after.Some? ==> x.updatedAt >= after.value)
      ensures forall x | x in observations.Values && (assetId == "" || x.assetId == assetId)
                         && (after.Some? ==> x.updatedAt >= after.value) && x !in items && items != [] ::
                || ComesBefore(x.updatedAt, x.id, items[0].updatedAt, items[0].id)
                || ComesBefore(items[|items| - 1].updatedAt, items[|items| - 1].id, x.updatedAt, x.id)
    {
      items, total := ListMatching(observations, (x: Observation) => ObservationListed(assetId, after, x),
                                   (x: Observation) => Stamp(x.updatedAt, x.id), page);
    }

    /** `updatedAfter` is the filter's text read as a time; `Some(None)` did not parse. */
    method ListObservations(assetId: string, updatedAfter: Option<Option<int>>, page: Pagination)
      returns (r: Reply<(seq<Observation>, nat)>)
      requires 0 <= page.offset && 0 <= page.limit
      requires forall k | k in observations :: observations[k].id == k
      ensures r.Refused? <==> updatedAfter == Some(None)
      ensures r.Done? ==>
                var after := if updatedAfter.Some? then updatedAfter.value else None;
                IsPageOf(r.value.0, r.value.1, observations, (x: Observation) => ObservationListed(assetId, after, x),
                         (x: Observation) => Stamp(x.updatedAt, x.id), page)
      ensures r.Done? ==>
                var items := r.value.0;
                && (forall i, j | 0 <= i < j < |items| ::
                      ComesBefore(items[i].updatedAt, items[i].id, items[j].updatedAt, items[j].id))
                && (forall x | x in items ::
                      && x in observations.Values && (assetId == "" || x.assetId == assetId)
                      && (updatedAfter.Some? ==> x.updatedAt >= updatedAfter.value.value))
                && (forall x | x in observations.Values && (assetId == "" || x.assetId == assetId)
                             && (updatedAfter.Some? ==> x.updatedAt >= updatedAfter.value.value)
                             && x !in items && items != [] ::
                      || ComesBefore(x.updatedAt, x.id, items[0].updatedAt, items[0].id)
                      || ComesBefore(items[|items| - 1].updatedAt, items[|items| - 1].id, x.updatedAt, x.id))
    {
      if updatedAfter == Some(None) {
        return Refused(BadRequest("updated_after"));
      }
      var items, total := ListSince(assetId, if updatedAfter.Some? then updatedAfter.value else None, page);
      return Done((items, total));
    }

    // -------------------------------------------------------------- tasks

    method CreateTask(t: Task) returns (r: Reply<Task>)
      modifies this`tasks
      ensures r == if t.id in old(tasks) then Refused(Clash("already_exists")) else Done(t)
      ensures tasks == if r.Done? then old(tasks)[t.id := t] else old(tasks)
    {
      if t.id in tasks {
        return Refused(Clash("already_exists"));
      }
      tasks := tasks[t.id := t];
      return Done(t);
    }

    method GetTask(id: string) returns (r: Reply<Task>)
      ensures r == if id in tasks then Done(tasks[id]) else Refused(Missing("task"))
    {
      return if id in tasks then Done(tasks[id]) else Refused(Missing("task"));
    }

    method UpdateTask(t: Task) returns (r: Reply<Task>)
      modifies this`tasks
      ensures r == if t.id in old(tasks) then Done(t) else Refused(Missing("task"))
      ensures tasks == if r.Done? then old(tasks)[t.id := t] else old(tasks)
    {
      if t.id !in tasks {
        return Refused(Missing("task"));
      }
      tasks := tasks[t.id := t];
      return Done(t);
    }

    method DeleteTask(id: string) returns (r: Reply<()>)
      modifies this`tasks
      ensures r == if id in old(tasks) then Done(()) else Refused(Missing("task"))
      ensures tasks == old(tasks) - {id}
    {
      if id !in tasks {
        return Refused(Missing("task"));
      }
      tasks := tasks - {id};
      return Done(());
    }

    method CountTaskOwnedObjects(id: string) returns (n: nat)
      ensures n == |set o | o in objects && IsOwned(objects[o], "task", id)|
      ensures n > 0 <==> TaskOwnsObjects(State(), id)
    {
      n := CountWhere(objects, (o: Object) => IsOwned(o, "task", id));
      SameCount(objects, (o: Object) => IsOwned(o, "task", id), set o | o in objects && IsOwned(objects[o], "task", id));
    }

    method ListTasks(assetId: string, status: string, page: Pagination) returns (items: seq<Task>, total: nat)
      requires 0 <= page.offset && 0 <= page.limit
      requires forall k | k in tasks :: tasks[k].id == k
      ensures IsPageOf(items, total, tasks, (x: Task) => TaskListed(assetId, status, x),
                       (x: Task) => Stamp(x.updatedAt, x.id), page)
      ensures forall i, j | 0 <= i < j < |items| ::
                ComesBefore(items[i].updatedAt, items[i].id, items[j].updatedAt, items[j].id)
      ensures forall x | x in items ::
                x in tasks.Values && (assetId == "" || x.assetId == assetId) && (status == "" || x.status == status)
      ensures forall x | x in tasks.Values && (assetId == "" || x.assetId == assetId)
                         && (status == "" || x.status == status) && x !in items && items != [] ::
                || ComesBefore(x.updatedAt, x.id, items[0].updatedAt, items[0].id)
                || ComesBefore(items[|items| - 1].updatedAt, items[|items| - 1].id, x.updatedAt, x.id)
    {
      items, total := ListMatching(tasks, (x: Task) => TaskListed(assetId, status, x),
                                   (x: Task) => Stamp(x.updatedAt, x.id), page);
    }

    // -------------------------------------------------------------- objects

    method CreateObject(o: Object) returns (r: Reply<Object>)
      modifies this`objects
      ensures r.Done? <==> o.id !in old(objects) && OwnerFound(old(State()), o)
      ensures r.Done? ==> r.value == o
      ensures o.id in old(objects) ==> r == Refused(Clash("already_exists"))
      ensures objects == if r.Done? then old(objects)[o.id := o] else old(objects)
    {
      if o.id in objects {
        return Refused(Clash("already_exists"));
      }
      match o.ownerType {
        case "entity" =>
          if o.ownerId !in entities {
            return Refused(Missing("entity"));
          }
        case "observation" =>
          if o.ownerId !in observations {
            return Refused(Missing("observation"));
          }
        case "task" =>
          if o.ownerId !in tasks {
            return Refused(Missing("task"));
          }
        case _ =>
      }
      objects := objects[o.id := o];
      return Done(o);
    }

    method GetObject(id: string) returns (r: Reply<Object>)
      ensures r == if id in objects then Done(objects[id]) else Refused(Missing("object"))
    {
      return if id in objects then Done(objects[id]) else Refused(Missing("object"));
    }

    method UpdateObject(o: Object) returns (r: Reply<Object>)
      modifies this`objects
      ensures r == if o.id in old(objects) then Done(o) else Refused(Missing("object"))
      ensures objects == if r.Done? then old(objects)[o.id := o] else old(objects)
    {
      if o.id !in objects {
        return Refused(Missing("object"));
      }
      objects := objects[o.id := o];
      return Done(o);
    }

    /** Refused while a task pins the object; takes its files along. */
    method DeleteObject(id: string) returns (r: Reply<()>)
      modifies this`objects, this`files, this`bytes
      ensures r == if id !in old(objects) then Refused(Missing("object"))
                   else if IsPinned(old(State()), id) then Refused(Clash("referenced"))
                   else Done(())
      ensures State() == if r.Done? then WithoutObjects(old(State()), {id}) else old(State())
    {
      if id !in objects {
        return Refused(Missing("object"));
      }
      var todo := tasks.Keys;
      while todo != {}
        invariant todo <= tasks.Keys && State() == old(State())
        invariant forall t | t in tasks.Keys - todo :: tasks[t].pin != id
      {
        var t :| t in todo;
        todo := todo - {t};
        if tasks[t].pin == id {
          return Refused(Clash("referenced"));
        }
      }
      objects := objects - {id};
      DropFiles(id);
      assert WithoutObjects(old(State()), {}) == old(State());
      DroppingOneMore(old(State()), {}, id);
      assert {} + {id} == {id};
      return Done(());
    }

    method ListObjects(ownerType: string, ownerId: string, typ: string, page: Pagination)
      returns (items: seq<Object>, total: nat)
      requires 0 <= page.offset && 0 <= page.limit
      requires forall k | k in objects :: objects[k].id == k
      ensures IsPageOf(items, total, objects, (x: Object) => ObjectListed(ownerType, ownerId, typ, x),
                       (x: Object) => Stamp(x.updatedAt, x.id), page)
      ensures forall i, j | 0 <= i < j < |items| ::
                ComesBefore(items[i].updatedAt, items[i].id, items[j].updatedAt, items[j].id)
      ensures forall x | x in items ::
                && x in objects.Values && (ownerType == "" || (x.ownerType == ownerType && x.ownerId == ownerId))
                && (typ == "" || x.typ == typ)
      ensures forall x | x in objects.Values && (ownerType == "" || (x.ownerType == ownerType && x.ownerId == ownerId))
                         && (typ == "" || x.typ == typ) && x !in items && items != [] ::
                || ComesBefore(x.updatedAt, x.id, items[0].updatedAt, items[0].id)
                || ComesBefore(items[|items| - 1].updatedAt, items[|items| - 1].id, x.updatedAt, x.id)
    {
      items, total := ListMatching(objects, (x: Object) => ObjectListed(ownerType, ownerId, typ, x),
                                   (x: Object) => Stamp(x.updatedAt, x.id), page);
    }

    // -------------------------------------------------------------- files

    /** `io.ReadAll` from a LimitedReader, and the two size checks after it. */
    method ReadBody(src: Source, limit: nat, field: string) returns (r: Reply<Bytes>)
      ensures r.Done? <==> BodyOk(src, limit)
      ensures r.Done? ==> r.value == Content(src)
      ensures r.Refused? ==> r.why in {ReadFailed, BadRequest(field), TooLarge}
    {
      var read, ok := Copy(src, limit + 1, limit + 1);
      if !ok {
        return Refused(ReadFailed);
      }
      if |read| == 0 {
        return Refused(BadRequest(field));
      }
      if |read| > limit {
        return Refused(TooLarge);
      }
      return Done(read);
    }

    /** The scan of the recorded paths. */
    method PathTaken(path: string) returns (taken: bool)
      ensures taken <==> exists k | k in files :: files[k].path == path
    {
      var todo := files.Keys;
      while todo != {}
        invariant todo <= files.Keys && forall k | k in files.Keys - todo :: files[k].path != path
      {
        var k :| k in todo;
        todo := todo - {k};
        if files[k].path == path {
          return true;
        }
      }
      return false;
    }

    /** The checks of `CreateObjectFile` before it reads anything. */
    method CheckRoom(k: Key) returns (r: Reply<()>)
      ensures r.Done? <==> HasRoomFor(State(), k)
      ensures r.Refused? && r.why.Clash? <==>
                && k.objectId in objects && IsValidId(k.objectId) && IsValidId(k.fileId)
                && (k in files || exists k2 | k2 in files :: files[k2].path == ObjectPath(k.objectId, k.fileId))
      ensures k.objectId !in objects ==> r == Refused(Missing("object"))
    {
      if k.objectId !in objects {
        return Refused(Missing("object"));
      }
      if !IsValidId(k.objectId) || !IsValidId(k.fileId) {
        return Refused(BadRequest("path"));
      }
      if k in files {
        return Refused(Clash("already_exists"));
      }
      var taken := PathTaken(ObjectPath(k.objectId, k.fileId));
      return if taken then Refused(Clash("already_exists")) else Done(());
    }

    /** The end of `CreateObjectFile`. */
    method StoreFile(k: Key, content: Bytes, now: int) returns (file: ObjectFile)
      modifies this`files, this`bytes
      ensures State() == WithFile(old(State()), k, content, now) && file == files[k]
    {
      file := ObjectFile(k, ObjectPath(k.objectId, k.fileId), |content|, now, now);
      files, bytes := files[k := file], bytes[k := content];
    }

    /** `CreateObjectFile` from a reader. */
    method CreateObjectFile(k: Key, src: Source, maxBytes: int, now: int) returns (r: Reply<ObjectFile>)
      modifies this`files, this`bytes
      ensures r.Done? <==> old(HasRoomFor(State(), k)) && BodyOk(src, UploadLimit(maxBytes))
      ensures r.Done? ==> State() == WithFile(old(State()), k, Content(src), now) && r.value == files[k]
      ensures r.Refused? ==> State() == old(State())
      ensures r.Refused? && r.why.Clash? <==>
                && k.objectId in objects && IsValidId(k.objectId) && IsValidId(k.fileId)
                && (k in old(files) || exists k2 | k2 in old(files) :: old(files)[k2].path == ObjectPath(k.objectId, k.fileId))
    {
      var room := CheckRoom(k);
      if room.Refused? {
        return Refused(room.why);
      }
      var body := ReadBody(src, UploadLimit(maxBytes), "file");
      if body.Refused? {
        return Refused(body.why);
      }
      var file := StoreFile(k, body.value, now);
      return Done(file);
    }

    /** Reading a staged file this store has taken over, before its deferred removal. */
    method ReadStaged(s: PreStaged, limit: nat, disk: FileStore, f: StagedFaults) returns (r: Reply<Bytes>)
      requires s.path in disk.staging
      ensures r.Done? <==> !f.open && !f.read && |disk.staging[s.path]| == s.size && 0 < s.size <= limit
      ensures r.Done? ==> r.value == disk.staging[s.path]
      ensures r.Refused? ==> !r.why.Clash?
    {
      if f.open {
        return Refused(ReadFailed);
      }
      var content := disk.staging[s.path];
      if |content| != s.size {
        return Refused(BadRequest("pre_staged"));
      }
      if |content| == 0 {
        return Refused(BadRequest("file"));
      }
      if |content| > limit {
        return Refused(TooLarge);
      }
      return if f.read then Refused(ReadFailed) else Done(content);
    }

    /** The store has checked the row, found the staged file, and will remove it whatever happens next. */
    predicate TakesOverStaged(k: Key, s: PreStaged, disk: FileStore, f: StagedFaults)
      reads this, disk
    {
      HasRoomFor(State(), k) && s.size >= 0 && !f.lstat && !f.resolve && s.path in disk.staging
    }

    /** `CreateObjectFile` from a staged file, which it removes on every path once it has taken it over. */
    method CreateObjectFileFromStaged(k: Key, s: PreStaged, maxBytes: int, now: int, disk: FileStore, f: StagedFaults)
      returns (r: Reply<ObjectFile>)
      modifies this`files, this`bytes, disk`staging
      ensures r.Done? <==>
                && old(TakesOverStaged(k, s, disk, f)) && !f.open && !f.read
                && |old(disk.staging)[s.path]| == s.size && 0 < s.size <= UploadLimit(maxBytes)
      ensures r.Done? ==> State() == WithFile(old(State()), k, old(disk.staging)[s.path], now) && r.value == files[k]
      ensures r.Refused? ==> State() == old(State())
      ensures disk.staging == if old(TakesOverStaged(k, s, disk, f)) && !f.remove then old(disk.staging) - {s.path}
                              else old(disk.staging)
    {
      var room := CheckRoom(k);
      if room.Refused? {
        return Refused(room.why);
      }
      if s.size < 0 {
        return Refused(BadRequest("pre_staged"));
      }
      if f.lstat || f.resolve || s.path !in disk.staging {
        return Refused(ReadFailed);
      }
      var body := ReadStaged(s, UploadLimit(maxBytes), disk, f);
      if body.Refused? {
        r := Refused(body.why);
      } else {
        var file := StoreFile(k, body.value, now);
        r := Done(file);
      }
      disk.CleanupStagedPath(s.path, f.remove);
    }

    method AppendObjectFile(k: Key, src: Source, maxBytes: int, now: int) returns (r: Reply<ObjectFile>)
      modifies this`files, this`bytes
      ensures r.Done? <==> k in old(files) && old(files)[k].key.objectId == k.objectId && BodyOk(src, UploadLimit(maxBytes))
      ensures r.Done? ==>
                && bytes == old(bytes)[k := BytesOf(old(State()), k) + Content(src)]
                && files == old(files)[k := old(files)[k].(size := |bytes[k]|, updatedAt := now)]
                && r.value == files[k]
      ensures r.Refused? ==> State() == old(State())
    {
      if k !in files || files[k].key.objectId != k.objectId {
        return Refused(Missing("object_file"));
      }
      var body := ReadBody(src, UploadLimit(maxBytes), "body");
      if body.Refused? {
        return Refused(body.why);
      }
      bytes := bytes[k := BytesOf(State(), k) + body.value];
      files := files[k := files[k].(size := |bytes[k]|, updatedAt := now)];
      return Done(files[k]);
    }

    /** The row and all the bytes the returned reader will yield. */
    method OpenObjectFile(k: Key) returns (r: Reply<(ObjectFile, Bytes)>)
      ensures r == if k in files && files[k].key.objectId == k.objectId then Done((files[k], BytesOf(State(), k)))
                   else Refused(Missing("object_file"))
    {
      if k !in files || files[k].key.objectId != k.objectId {
        return Refused(Missing("object_file"));
      }
      return Done((files[k], BytesOf(State(), k)));
    }

    /** The rows of an object's files, by file ID. */
    method ListObjectFilesForObject(id: string) returns (items: seq<ObjectFile>)
      requires forall k | k in files :: files[k].key == k
      ensures Sorted(items, (f: ObjectFile) => Stamp(0, f.key.fileId))
      ensures forall i, j | 0 <= i < j < |items| :: IsAheadOf(items[i].key.fileId, items[j].key.fileId)
      ensures forall k | k in files && k.objectId == id :: files[k] in items
      ensures forall f | f in items :: f.key.objectId == id && f.key in files && files[f.key] == f
    {
      var mine := map k | k in files && files[k].key.objectId == id :: files[k];
      items := Matching(mine, (f: ObjectFile) => true, (f: ObjectFile) => Stamp(0, f.key.fileId));
      SortedMeans(items, (f: ObjectFile) => Stamp(0, f.key.fileId));
      forall k | k in files && k.objectId == id ensures files[k] in items {
        assert k in mine && mine[k] == files[k];
      }
    }

    method DeleteObjectFile(k: Key) returns (r: Reply<()>)
      modifies this`files, this`bytes
      ensures r == if k in old(files) && old(files)[k].key.objectId == k.objectId then Done(())
                   else Refused(Missing("object_file"))
      ensures r.Done? ==> files == old(files) - {k} && bytes == old(bytes) - {k}
      ensures r.Refused? ==> State() == old(State())
    {
      if k !in files || files[k].key.objectId != k.objectId {
        return Refused(Missing("object_file"));
      }
      files, bytes := files - {k}, bytes - {k};
      return Done(());
    }
  }

  lemma DroppingOneMore(st: StoreState, ids: set<string>, id: string)
    ensures var st1 := WithoutObjects(st, ids);
            var gone := set k | k in st1.files && st1.files[k].key.objectId == id;
            WithoutObjects(st, ids + {id}) ==
            st1.(objects := st1.objects - {id}, files := st1.files - gone, bytes := st1.bytes - gone)
  {
  }
}
