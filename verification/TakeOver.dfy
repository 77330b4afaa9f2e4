/** What can go wrong once a catalog is activated over an object that an observation owns, and that such
    runs exist for every catalog. */
module TakeOver {
  import opened Integrity
  import opened Json
  import opened ObjectFiles
  import opened Paths
  import opened Records
  import opened Replica
  import opened ServiceSpec

  const EMPTY: Sys := Sys(StoreState(map[], map[], map[], map[], map[], map[]), None)

  lemma {:induction false} RunOneMore(env: Env, s: Sys, ops: seq<Op>, op: Op)
    ensures Run(env, s, ops + [op]) == Apply(env, Run(env, s, ops), op)
    decreases |ops|
  {
    if ops == [] {
      assert ([] + [op])[1..] == [];
      assert Run(env, Apply(env, s, op), []) == Apply(env, s, op);
    } else {
      assert (ops + [op])[1..] == ops[1..] + [op];
      RunOneMore(env, Apply(env, s, ops[0]), ops[1..], op);
    }
  }

  lemma RunThreeMore(env: Env, s: Sys, ops: seq<Op>, a: Op, b: Op, c: Op)
    ensures Run(env, s, ops + [a] + [b] + [c]) == Apply(env, Apply(env, Apply(env, Run(env, s, ops), a), b), c)
  {
    RunOneMore(env, s, ops, a);
    RunOneMore(env, s, ops + [a], b);
    RunOneMore(env, s, ops + [a] + [b], c);
  }

  // ---------------------------------------------------------------- dangling pins

  /** The active catalog's object belongs to an observation. */
  ghost predicate IsOwnedBy(s: Sys, owner: string) {
    && s.active.Some? && s.active.value.objectId in s.store.objects
    && var o := s.store.objects[s.active.value.objectId];
    && o.ownerType == "observation" && o.ownerId == owner && owner in s.store.observations
  }

  lemma CreatedTaskPins(env: Env, s: Sys, create: Op)
    requires create.CreateTask? && Accepts(env, s, create) && s.active.Some?
    ensures var s' := Apply(env, s, create);
            && s' == s.(store := s.store.(tasks := s'.store.tasks))
            && create.id in s'.store.tasks && s'.store.tasks[create.id].pin == s.active.value.objectId
  {
    TaskCallsStayThere(env, s, create);
  }

  lemma CascadeKeepsTasks(env: Env, s: Sys, owner: string)
    requires IsOwnedBy(s, owner)
    ensures var s' := Apply(env, s, Op.DeleteObservation(owner));
            s'.store.tasks == s.store.tasks && s.active.value.objectId !in s'.store.objects
  {
    assert s.active.value.objectId in ObjectsOfObservation(s.store, owner);
  }

  /** A task created after a take-over pins an object that goes with the observation, and stays behind. */
  lemma PinDangles(env: Env, s: Sys, owner: string, create: Op)
    requires IsOwnedBy(s, owner) && create.CreateTask? && Accepts(env, s, create)
    ensures var s' := Apply(env, Apply(env, s, create), Op.DeleteObservation(owner));
            create.id in s'.store.tasks && s'.store.tasks[create.id].pin !in s'.store.objects
  {
    CreatedTaskPins(env, s, create);
    CascadeKeepsTasks(env, Apply(env, s, create), owner);
  }

  // ---------------------------------------------------------------- reachability

  /** An asset that supports one command. */
  function AssetJson(time: string, command: string): JsonMap {
    map["components" := Obj(map["supported_commands" :=
          Obj(map["observed_at" := Str(time), "commands" := Arr([Str(command)])])])]
  }

  function ActiveState(): JsonMap {
    map["state" := Str("active")]
  }

  lemma AssetIsOk(env: Env, time: string, command: string)
    requires TimestampOk(env, time) && SnakeCaseOk(env, command)
    ensures EntityOk(env, "asset", AssetJson(time, command))
    ensures forall asset: Entity | asset.json == AssetJson(time, command) :: AssetSupports(asset, command)
  {
    var name := "supported_commands";
    assert name[0] == 's' && CUSTOM_PREFIX[0] == 'c';
    var component := map["observed_at" := Str(time), "commands" := Arr([Str(command)])];
    var commands := ReadStringSlice(component["commands"]).value;
    assert commands[0] == command;
    assert SupportedCommandsOk(env, component);
    assert NamedComponentOk(env, "asset", name, Obj(component));
  }

  function WithAsset(time: string, command: string): Sys {
    EMPTY.(store := EMPTY.store.(entities := map["a" := Entity("a", "asset", "", "", AssetJson(time, command), 0, 0)]))
  }

  function WithObservation(time: string, command: string): Sys {
    var s := WithAsset(time, command);
    s.(store := s.store.(observations := map["b" := Observation("b", "a", ActiveState(), 0, 0)]))
  }

  function WithOwnedObject(time: string, command: string, id: string): Sys {
    var s := WithObservation(time, command);
    s.(store := s.store.(objects := map[id := Object(id, "x", "observation", "b", map[], 0, 0)]))
  }

  lemma ShortIdsAreValid()
    ensures IsValidId("a") && IsValidId("b") && IsValidId("t")
  {
    assert "a"[0] != '.' && "b"[0] != '.' && "t"[0] != '.';
  }

  lemma AssetIsAdded(env: Env, time: string, command: string)
    requires TimestampOk(env, time) && SnakeCaseOk(env, command)
    ensures Apply(env, EMPTY, Op.CreateEntity("a", "asset", "", "", Some(AssetJson(time, command)), 0))
         == WithAsset(time, command)
  {
    ShortIdsAreValid();
    AssetIsOk(env, time, command);
  }

  lemma ObservationIsAdded(env: Env, time: string, command: string)
    ensures Apply(env, WithAsset(time, command), Op.CreateObservation("b", "a", Some(ActiveState()), 0))
         == WithObservation(time, command)
  {
    ShortIdsAreValid();
    assert ObservationOk(env, map[], "b", ActiveState());
  }

  lemma TypeIsKept()
    ensures TrimSpace("x") == "x"
  {
    assert TrimLeft("x") == "x" && TrimRight("x") == "x";
  }

  lemma ObjectIsAdded(env: Env, time: string, command: string, id: string)
    requires IsValidId(id)
    ensures Apply(env, WithObservation(time, command), Op.CreateObject(id, "x", "observation", "b", None, 0))
         == WithOwnedObject(time, command, id)
  {
    TypeIsKept();
    assert "x"[0] == 'x' && "fusion_provenance"[0] == 'f' && "observation_sighting_history"[0] == 'o';
  }

  /** The three calls that set the take-over up. */
  function SetUp(time: string, command: string, id: string): seq<Op> {
    [] + [Op.CreateEntity("a", "asset", "", "", Some(AssetJson(time, command)), 0)]
    + [Op.CreateObservation("b", "a", Some(ActiveState()), 0)]
    + [Op.CreateObject(id, "x", "observation", "b", None, 0)]
  }

  lemma SetUpRuns(env: Env, time: string, command: string, id: string)
    requires TimestampOk(env, time) && SnakeCaseOk(env, command) && IsValidId(id)
    ensures Run(env, EMPTY, SetUp(time, command, id)) == WithOwnedObject(time, command, id)
  {
    var op1 := Op.CreateEntity("a", "asset", "", "", Some(AssetJson(time, command)), 0);
    var op2 := Op.CreateObservation("b", "a", Some(ActiveState()), 0);
    var op3 := Op.CreateObject(id, "x", "observation", "b", None, 0);
    RunThreeMore(env, EMPTY, [], op1, op2, op3);
    AssetIsAdded(env, time, command);
    ObservationIsAdded(env, time, command);
    ObjectIsAdded(env, time, command, id);
  }

  lemma CatalogTakesOver(env: Env, time: string, command: string, raw: Bytes)
    requires LoadCatalog(env, raw).Some? && IsValidId(LoadCatalog(env, raw).value.objectId) && raw != []
    ensures var id := LoadCatalog(env, raw).value.objectId; var s := WithOwnedObject(time, command, id);
            var op := Op.Activate(raw, 0); var s' := Apply(env, s, op);
            && Accepts(env, s, op) && TakesOverOwned(env, s, op) && IsOwnedBy(s', "b")
            && s'.active == LoadCatalog(env, raw) && s'.store.entities == s.store.entities && s'.store.tasks == map[]
  {
    var c := LoadCatalog(env, raw).value;
    MaterializingStaysThere(WithOwnedObject(time, command, c.objectId).store, c, 0);
  }

  /** For every catalog with a valid ID there is a run from the empty store, all of its calls accepted, in
      which its activation takes over an observation's object, and the next call removes that object. */
  lemma TakeOverIsReachable(env: Env, raw: Bytes, time: string, command: string)
    requires LoadCatalog(env, raw).Some? && IsValidId(LoadCatalog(env, raw).value.objectId) && raw != []
    requires TimestampOk(env, time) && SnakeCaseOk(env, command)
    ensures var s := Run(env, EMPTY, SetUp(time, command, LoadCatalog(env, raw).value.objectId));
            var op := Op.Activate(raw, 0);
            && Accepts(env, s, op) && TakesOverOwned(env, s, op) && ActiveObjectPresent(Apply(env, s, op))
            && !ActiveObjectPresent(Apply(env, Apply(env, s, op), Op.DeleteObservation("b")))
  {
    var id := LoadCatalog(env, raw).value.objectId;
    SetUpRuns(env, time, command, id);
    CatalogTakesOver(env, time, command, raw);
    CascadeKeepsTasks(env, Apply(env, WithOwnedObject(time, command, id), Op.Activate(raw, 0)), "b");
  }

  lemma TaskIsAccepted(env: Env, s: Sys, time: string, json: JsonMap)
    requires s.active.Some? && TaskCommandOk(env, json, s.active.value.commands)
    requires s.store.tasks == map[] && s.store.entities == WithAsset(time, CommandTypeOf(json)).store.entities
    requires TimestampOk(env, time) && SnakeCaseOk(env, CommandTypeOf(json))
    ensures Accepts(env, s, Op.CreateTask("t", "a", Some(json), 0))
  {
    ShortIdsAreValid();
    AssetIsOk(env, time, CommandTypeOf(json));
  }

  lemma PinDanglesAfterActivation(env: Env, raw: Bytes, time: string, json: JsonMap)
    requires LoadCatalog(env, raw).Some? && IsValidId(LoadCatalog(env, raw).value.objectId) && raw != []
    requires TaskCommandOk(env, json, LoadCatalog(env, raw).value.commands)
    requires TimestampOk(env, time) && SnakeCaseOk(env, CommandTypeOf(json))
    ensures var s := WithOwnedObject(time, CommandTypeOf(json), LoadCatalog(env, raw).value.objectId);
            var s1 := Apply(env, s, Op.Activate(raw, 0));
            var s' := Apply(env, Apply(env, s1, Op.CreateTask("t", "a", Some(json), 0)), Op.DeleteObservation("b"));
            "t" in s'.store.tasks && s'.store.tasks["t"].pin !in s'.store.objects
  {
    var s := WithOwnedObject(time, CommandTypeOf(json), LoadCatalog(env, raw).value.objectId);
    CatalogTakesOver(env, time, CommandTypeOf(json), raw);
    TaskIsAccepted(env, Apply(env, s, Op.Activate(raw, 0)), time, json);
    PinDangles(env, Apply(env, s, Op.Activate(raw, 0)), "b", Op.CreateTask("t", "a", Some(json), 0));
  }

  /** The calls that leave task t with a pin that names nothing. */
  function DanglingRun(raw: Bytes, time: string, json: JsonMap, id: string): seq<Op> {
    SetUp(time, CommandTypeOf(json), id)
    + [Op.Activate(raw, 0)] + [Op.CreateTask("t", "a", Some(json), 0)] + [Op.DeleteObservation("b")]
  }

  /** For every catalog and every task it allows, the run goes on to a task whose pinned object is gone. */
  lemma DanglingPinIsReachable(env: Env, raw: Bytes, time: string, json: JsonMap)
    requires LoadCatalog(env, raw).Some? && IsValidId(LoadCatalog(env, raw).value.objectId) && raw != []
    requires TaskCommandOk(env, json, LoadCatalog(env, raw).value.commands)
    requires TimestampOk(env, time) && SnakeCaseOk(env, CommandTypeOf(json))
    ensures var s := Run(env, EMPTY, DanglingRun(raw, time, json, LoadCatalog(env, raw).value.objectId));
            "t" in s.store.tasks && s.store.tasks["t"].pin !in s.store.objects
  {
    var id := LoadCatalog(env, raw).value.objectId;
    SetUpRuns(env, time, CommandTypeOf(json), id);
    RunThreeMore(env, EMPTY, SetUp(time, CommandTypeOf(json), id),
                 Op.Activate(raw, 0), Op.CreateTask("t", "a", Some(json), 0), Op.DeleteObservation("b"));
    PinDanglesAfterActivation(env, raw, time, json);
  }

  // ---------------------------------------------------------------- untold changes of objects

  /** Both exceptions of `ObjectsToldIff` occur: the cascade, in the state set up above, and the first
      activation of a catalog in the empty store. */
  lemma UntoldChangesAreReachable(env: Env, raw: Bytes, time: string, command: string, id: string)
    requires LoadCatalog(env, raw).Some? && TimestampOk(env, time) && SnakeCaseOk(env, command) && IsValidId(id)
    ensures var s := Run(env, EMPTY, SetUp(time, command, id)); var op := Op.DeleteObservation("b");
            AbsorbObjects(s.store.objects, Emits(env, s, op)) != Apply(env, s, op).store.objects
    ensures AbsorbObjects(map[], Emits(env, EMPTY, Op.Activate(raw, 0)))
         != Apply(env, EMPTY, Op.Activate(raw, 0)).store.objects
  {
    SetUpRuns(env, time, command, id);
    var s := WithOwnedObject(time, command, id);
    assert id in ObjectsOfObservation(s.store, "b");
    ObjectsToldIff(env, s, Op.DeleteObservation("b"));
    ObjectsToldIff(env, EMPTY, Op.Activate(raw, 0));
  }
}
