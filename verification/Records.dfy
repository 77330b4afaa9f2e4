/** The stored records, the maps that hold them, and the validators of the service. */
module Records {
  import opened CustomComponents
  import opened Json
  import opened ObjectFiles
  import opened Paths
  import opened Schema
  import opened TaskJson

  datatype Entity = Entity(id: string, typ: string, subtype: string, alias: string, json: JsonMap,
                           createdAt: int, updatedAt: int)

  datatype Observation = Observation(id: string, assetId: string, json: JsonMap, createdAt: int, updatedAt: int)

  datatype Task = Task(id: string, status: string, assetId: string, pin: string, json: JsonMap,
                       createdAt: int, updatedAt: int)

  datatype Object = Object(id: string, typ: string, ownerType: string, ownerId: string, json: JsonMap,
                           createdAt: int, updatedAt: int)

  datatype ObjectFile = ObjectFile(key: Key, path: string, size: nat, createdAt: int, updatedAt: int)

  /** The six maps of the in-memory store. */
  datatype StoreState = StoreState(
    entities: map<string, Entity>, observations: map<string, Observation>, tasks: map<string, Task>,
    objects: map<string, Object>, files: map<Key, ObjectFile>, bytes: map<Key, Bytes>)

  datatype Command = Command(typ: string, displayName: string, description: string, schema: Option<JsonMap>)

  /** A decoded command catalog with the bytes it was decoded from. */
  datatype Catalog = Catalog(catalogId: string, version: string, commands: seq<Command>, raw: Bytes,
                             contentHash: string, objectId: string)

  /** What `json.Unmarshal` fills in. */
  datatype ParsedCatalog = ParsedCatalog(catalogId: string, version: string, commands: seq<Command>)

  /** The parts of Go and of the sighting catalog that are left uninterpreted. */
  datatype Env = Env(
    rx: Regex,
    parse: Bytes -> Option<ParsedCatalog>,
    hash: Bytes -> string,
    isRfc3339: string -> bool,
    isSnakeCase: string -> bool,
    encodedSize: Value -> nat,
    sightingOk: Value -> bool,
    sightingsReady: bool)

  datatype Failure =
    | Missing(resource: string)
    | Clash(reason: string)
    | BadRequest(field: string)
    | BadCommand
    | NoCatalog
    | Frozen
    | BadTransition
    | TooLarge
    | ReadFailed

  datatype Reply<+T> = Done(value: T) | Refused(why: Failure)

  // ---------------------------------------------------------------- strings.TrimSpace

  predicate IsSpace(c: char) {
    c in {' ', '\t', '\n', '\r', '\U{0B}', '\U{0C}', '\U{85}', '\U{A0}', '\U{1680}', '\U{2028}', '\U{2029}', '\U{202F}',
          '\U{205F}', '\U{3000}'} || '\U{2000}' <= c <= '\U{200A}'
  }

  function TrimLeft(s: string): string {
    if s != "" && IsSpace(s[0]) then TrimLeft(s[1..]) else s
  }

  function TrimRight(s: string): string {
    if s != "" && IsSpace(s[|s| - 1]) then TrimRight(s[..|s| - 1]) else s
  }

  function TrimSpace(s: string): string {
    TrimRight(TrimLeft(s))
  }

  // ---------------------------------------------------------------- entities

  const ENTITY_TYPES: set<string> := {"asset", "track", "geofeature"}

  const COMPONENT_RULES: map<string, set<string>> := map[
    "heartbeat" := {"asset"}, "communications" := {"asset"}, "health" := {"asset"},
    "telemetry" := {"asset", "track"}, "geometry" := {"geofeature"}, "sensor_refs" := {"asset", "track"},
    "status" := {"asset", "track", "geofeature"}, "supported_commands" := {"asset"}, "fusion_summary" := {"track"}]

  const CUSTOM_PREFIX: string := "custom_"

  function Normal(json: Option<JsonMap>): JsonMap {
    json.GetOr(map[])
  }

  predicate SnakeCaseOk(env: Env, s: string) {
    IsValidId(s) && env.isSnakeCase(s)
  }

  /** `ValidateRFC3339Field`. */
  predicate TimestampOk(env: Env, s: string) {
    s != "" && env.isRfc3339(s)
  }

  predicate SupportedCommandsOk(env: Env, component: JsonMap) {
    && Lookup(component, "observed_at").Str? && TimestampOk(env, component["observed_at"].s)
    && ReadStringSlice(Lookup(component, "commands")).Some?
    && forall i | 0 <= i < |ReadStringSlice(Lookup(component, "commands")).value| ::
         SnakeCaseOk(env, ReadStringSlice(Lookup(component, "commands")).value[i])
  }

  predicate NamedComponentOk(env: Env, entityType: string, name: string, value: Value) {
    && name in COMPONENT_RULES && entityType in COMPONENT_RULES[name] && value.Obj?
    && (Lookup(value.fields, "observed_at").Str? ==> TimestampOk(env, value.fields["observed_at"].s))
    && (name == "supported_commands" ==> SupportedCommandsOk(env, value.fields))
  }

  ghost predicate ComponentOk(env: Env, entityType: string, name: string, value: Value) {
    if CUSTOM_PREFIX <= name then CustomComponentOk(env.encodedSize(value), value)
    else NamedComponentOk(env, entityType, name, value)
  }

  predicate NoneOf(json: JsonMap, promoted: set<string>) {
    json.Keys !! promoted
  }

  /** The JSON `validateEntityInput` lets through for an entity of a type. */
  ghost predicate EntityOk(env: Env, entityType: string, json: JsonMap) {
    && entityType in ENTITY_TYPES
    && NoneOf(json, {"entity_id", "type", "subtype", "alias", "created_at", "updated_at"})
    && (entityType == "asset" ==> "components" in json)
    && ("components" in json ==>
          && json["components"].Obj?
          && var components := json["components"].fields;
          && (forall name | name in components :: ComponentOk(env, entityType, name, components[name]))
          && (entityType == "asset" ==> "supported_commands" in components))
  }

  /** `validateEntityInput`, whatever order the components are visited in. */
  method ValidateEntityInput(env: Env, entityType: string, json: JsonMap) returns (r: Reply<()>)
    ensures r.Done? <==> EntityOk(env, entityType, json)
    ensures r.Refused? ==> r.why.BadRequest?
  {
    if entityType !in ENTITY_TYPES {
      return Refused(BadRequest("type"));
    }
    if !NoneOf(json, {"entity_id", "type", "subtype", "alias", "created_at", "updated_at"}) {
      return Refused(BadRequest("json"));
    }
    if "components" !in json {
      return if entityType == "asset" then Refused(BadRequest("supported_commands")) else Done(());
    }
    if !json["components"].Obj? {
      return Refused(BadRequest("components"));
    }
    var components := json["components"].fields;
    var todo := components.Keys;
    while todo != {}
      invariant todo <= components.Keys
      invariant forall name | name in components.Keys - todo :: ComponentOk(env, entityType, name, components[name])
    {
      var name :| name in todo;
      todo := todo - {name};
      var ok;
      if CUSTOM_PREFIX <= name {
        ok := ValidateCustomComponent(env.encodedSize(components[name]), components[name]);
      } else {
        ok := NamedComponentOk(env, entityType, name, components[name]);
      }
      if !ok {
        return Refused(BadRequest(name));
      }
    }
    if entityType == "asset" && "supported_commands" !in components {
      return Refused(BadRequest("supported_commands"));
    }
    return Done(());
  }

  // ---------------------------------------------------------------- observations

  /** `validateObservationJSON`. */
  predicate ObservationOk(env: Env, objects: map<string, Object>, observationId: string, json: JsonMap) {
    && Lookup(json, "state") in {Str("active"), Str("inactive"), Str("ended")}
    && ("latest_sighting" in json ==> env.sightingsReady && env.sightingOk(json["latest_sighting"]))
    && (Lookup(json, "sightings_object_id").Str? && json["sightings_object_id"].s != "" ==>
          && json["sightings_object_id"].s in objects
          && var o := objects[json["sightings_object_id"].s];
          && o.typ == "observation_sighting_history" && o.ownerType == "observation" && o.ownerId == observationId)
  }

  function ObservationProblem(env: Env, objects: map<string, Object>, observationId: string, json: JsonMap): Failure {
    if Lookup(json, "state") !in {Str("active"), Str("inactive"), Str("ended")} then BadRequest("state")
    else if "latest_sighting" in json && !env.sightingsReady then NoCatalog
    else if "latest_sighting" in json && !env.sightingOk(json["latest_sighting"]) then BadRequest("latest_sighting")
    else if Lookup(json, "sightings_object_id").Str? && json["sightings_object_id"].s !in objects then Missing("object")
    else BadRequest("sightings_object_id")
  }

  // ---------------------------------------------------------------- objects

  predicate OwnerExists(s: StoreState, ownerType: string, ownerId: string) {
    match ownerType
    case "entity" => ownerId in s.entities
    case "observation" => ownerId in s.observations
    case "task" => ownerId in s.tasks
    case "system" => ownerId == "active_command_catalog"
    case _ => false
  }

  /** `validateObjectInput` on an already trimmed type. */
  predicate ObjectOk(s: StoreState, id: string, rawType: string, ownerType: string, ownerId: string, json: JsonMap) {
    var typ := TrimSpace(rawType);
    && IsValidId(id) && typ != "" && ownerId != ""
    && OwnerExists(s, ownerType, ownerId)
    && (typ == "observation_sighting_history" ==> ownerType == "observation")
    && (typ == "fusion_provenance" ==> ownerType == "entity" && s.entities[ownerId].typ == "track")
    && NoneOf(json, {"object_id", "type", "owner_type", "owner_id", "created_at", "updated_at"})
  }

  function ObjectProblem(s: StoreState, id: string, rawType: string, ownerType: string, ownerId: string): Failure {
    if !IsValidId(id) then BadRequest("object_id")
    else if TrimSpace(rawType) == "" then BadRequest("type")
    else if ownerId == "" then BadRequest("owner")
    else if ownerType in {"entity", "observation", "task"} && !OwnerExists(s, ownerType, ownerId) then Missing(ownerType)
    else BadRequest("object")
  }

  // ---------------------------------------------------------------- command catalogs

  function ByType(commands: seq<Command>): map<string, Command> {
    if commands == [] then map[]
    else ByType(commands[..|commands| - 1])[commands[|commands| - 1].typ := commands[|commands| - 1]]
  }

  ghost predicate CommandOk(env: Env, c: Command) {
    && SnakeCaseOk(env, c.typ) && c.displayName != "" && c.description != ""
    && c.schema.Some? && Accepted(Obj(c.schema.value))
  }

  /** The catalogs `catalog.Validate` accepts. */
  ghost predicate CatalogOk(env: Env, c: ParsedCatalog) {
    && c.catalogId != "" && c.version != ""
    && (forall i | 0 <= i < |c.commands| :: CommandOk(env, c.commands[i]))
    && (forall i, j | 0 <= i < j < |c.commands| :: c.commands[i].typ != c.commands[j].typ)
  }

  /** `catalog.Validate`, as a verdict. */
  method ValidateCatalog(env: Env, c: ParsedCatalog) returns (ok: bool)
    ensures ok <==> CatalogOk(env, c)
  {
    ok := c.catalogId != "" && c.version != "";
    var seen: set<string> := {};
    for i := 0 to |c.commands|
      invariant seen == set j | 0 <= j < i :: c.commands[j].typ
      invariant ok <==>
        && c.catalogId != "" && c.version != ""
        && (forall j | 0 <= j < i :: CommandOk(env, c.commands[j]))
        && (forall j, k | 0 <= j < k < i :: c.commands[j].typ != c.commands[k].typ)
    {
      var command := c.commands[i];
      if !SnakeCaseOk(env, command.typ) || command.typ in seen || command.displayName == "" || command.description == "" {
        ok := false;
      }
      seen := seen + {command.typ};
      var schema := if command.schema.Some? then Some(Obj(command.schema.value)) else None;
      var fields := ValidateSchema(schema, [Property("parameters_schema")]);
      if fields != [] {
        ok := false;
      }
    }
  }

  const CATALOG_FILE: string := "catalog-json"

  function ObjectIdFromHash(hash: string): string {
    "command-catalog-" + hash
  }

  lemma ObjectIdInjective(a: string, b: string)
    requires ObjectIdFromHash(a) == ObjectIdFromHash(b)
    ensures a == b
  {
    var prefix := "command-catalog-";
    assert (prefix + a)[|prefix|..] == a && (prefix + b)[|prefix|..] == b;
  }

  /** `catalog.Load` on the bytes of a catalog file. */
  ghost function LoadCatalog(env: Env, raw: Bytes): Option<Catalog> {
    match env.parse(raw)
    case None => None
    case Some(p) =>
      if CatalogOk(env, p) then
        Some(Catalog(p.catalogId, p.version, p.commands, raw, env.hash(raw), ObjectIdFromHash(env.hash(raw))))
      else None
  }

  /** `catalog.Load`. */
  method Load(env: Env, raw: Bytes) returns (r: Option<Catalog>)
    ensures r == LoadCatalog(env, raw)
  {
    var parsed := env.parse(raw);
    if parsed.None? {
      return None;
    }
    var p := parsed.value;
    var ok := ValidateCatalog(env, p);
    if !ok {
      return None;
    }
    var hash := env.hash(raw);
    return Some(Catalog(p.catalogId, p.version, p.commands, raw, hash, ObjectIdFromHash(hash)));
  }

  // ---------------------------------------------------------------- task commands

  /** The command a task asks for is one of the catalog's, and its parameters satisfy its schema. */
  ghost predicate TaskCommandOk(env: Env, json: JsonMap, commands: seq<Command>) {
    && ComponentsOf(json).Some?
    && var components := ComponentsOf(json).value;
    && Lookup(components, "command").Obj?
    && Lookup(components["command"].fields, "type").Str?
    && var typ := components["command"].fields["type"].s;
    && typ != "" && typ in ByType(commands)
    && var parameters := if "parameters" in components then components["parameters"] else Obj(map[]);
    && Satisfies(env.rx, SchemaOf(ByType(commands)[typ]), parameters)
  }

  /** A nil schema reads as one without keywords. */
  function SchemaOf(c: Command): JsonMap {
    c.schema.GetOr(map[])
  }

  function CommandTypeOf(json: JsonMap): string {
    var components := ComponentsOf(json).GetOr(map[]);
    if Lookup(components, "command").Obj? && Lookup(components["command"].fields, "type").Str?
    then components["command"].fields["type"].s else ""
  }

  /** `validateTaskCommandCatalog`. */
  method ValidateTaskCommandCatalog(env: Env, json: JsonMap, commands: seq<Command>) returns (r: Reply<string>)
    ensures r.Done? <==> TaskCommandOk(env, json, commands)
    ensures r.Done? ==> r.value == CommandTypeOf(json)
    ensures r.Refused? ==> r.why.BadRequest? || r.why.BadCommand?
  {
    if ComponentsOf(json).None? {
      return Refused(BadRequest("components"));
    }
    var components := ComponentsOf(json).value;
    if !Lookup(components, "command").Obj? {
      return Refused(BadRequest("command"));
    }
    var typ := CommandTypeOf(json);
    if typ == "" {
      return Refused(BadRequest("command.type"));
    }
    if typ !in ByType(commands) {
      return Refused(BadCommand);
    }
    var parameters := if "parameters" in components then components["parameters"] else Obj(map[]);
    var verdict := ValidateValue(env.rx, SchemaOf(ByType(commands)[typ]), parameters, [Property("parameters")]);
    return if verdict.Valid? then Done(typ) else Refused(BadCommand);
  }

  /** `validateTaskCommandSupport`. */
  predicate AssetSupports(asset: Entity, commandType: string) {
    && ComponentsOf(asset.json).Some?
    && Lookup(ComponentsOf(asset.json).value, "supported_commands").Obj?
    && var supported := ComponentsOf(asset.json).value["supported_commands"].fields;
    && ReadStringSlice(Lookup(supported, "commands")).Some?
    && commandType in ReadStringSlice(Lookup(supported, "commands")).value
  }
}
