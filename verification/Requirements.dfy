/** What the service asks of the records it stores, in the terms of the stored JSON, and that its validators ask
    for just that. */
module Requirements {
  import opened CustomComponents
  import opened Json
  import opened Paths
  import opened Records
  import opened TaskJson

  // ---------------------------------------------------------------- entities

  /** The components a type of entity may have besides custom ones. */
  predicate MayHave(typ: string, name: string) {
    match typ
    case "asset" =>
      name in ["heartbeat", "communications", "health", "telemetry", "sensor_refs", "status", "supported_commands"]
    case "track" => name in ["telemetry", "sensor_refs", "status", "fusion_summary"]
    case "geofeature" => name in ["geometry", "status"]
    case _ => false
  }

  predicate IsTime(env: Env, v: Value) {
    v.Str? && v.s != "" && env.isRfc3339(v.s)
  }

  ghost predicate ListsCommands(env: Env, v: Value) {
    v.Arr? && forall x | x in v.items :: x.Str? && IsValidId(x.s) && env.isSnakeCase(x.s)
  }

  ghost predicate ComponentIsSound(env: Env, typ: string, name: string, v: Value) {
    if |name| >= 7 && name[..7] == "custom_" then CustomComponentOk(env.encodedSize(v), v)
    else
      && MayHave(typ, name) && v.Obj?
      && ("observed_at" in v.fields && v.fields["observed_at"].Str? ==> IsTime(env, v.fields["observed_at"]))
      && (name == "supported_commands" ==>
            && "observed_at" in v.fields && IsTime(env, v.fields["observed_at"])
            && "commands" in v.fields && ListsCommands(env, v.fields["commands"]))
  }

  ghost predicate EntityIsSound(env: Env, typ: string, json: JsonMap) {
    && typ in ["asset", "track", "geofeature"]
    && (forall k | k in json :: k !in ["entity_id", "type", "subtype", "alias", "created_at", "updated_at"])
    && ("components" in json ==> json["components"].Obj?)
    && (typ == "asset" ==> "supported_commands" in ComponentsIn(json))
    && (forall name | name in ComponentsIn(json) :: ComponentIsSound(env, typ, name, ComponentsIn(json)[name]))
  }

  lemma RulesAreTransposed(typ: string, name: string)
    requires typ in ENTITY_TYPES
    ensures name in COMPONENT_RULES && typ in COMPONENT_RULES[name] <==> MayHave(typ, name)
  {
  }

  lemma CommandsAreListed(env: Env, v: Value)
    ensures ListsCommands(env, v) <==>
            && ReadStringSlice(v).Some?
            && forall i | 0 <= i < |ReadStringSlice(v).value| :: SnakeCaseOk(env, ReadStringSlice(v).value[i])
  {
    if v.Arr? && forall x | x in v.items :: x.Str? {
      var strs := ReadStringSlice(v).value;
      assert forall i | 0 <= i < |strs| :: v.items[i] == Str(strs[i]);
    }
    if v.Arr? && ReadStringSlice(v).Some? {
      assert forall i | 0 <= i < |v.items| :: v.items[i].Str?;
    }
  }

  lemma PrefixIs(name: string)
    ensures CUSTOM_PREFIX <= name <==> |name| >= 7 && name[..7] == "custom_"
  {
  }

  lemma ComponentIff(env: Env, typ: string, name: string, v: Value)
    requires typ in ENTITY_TYPES
    ensures ComponentOk(env, typ, name, v) <==> ComponentIsSound(env, typ, name, v)
  {
    PrefixIs(name);
    RulesAreTransposed(typ, name);
    if v.Obj? && "commands" in v.fields {
      CommandsAreListed(env, v.fields["commands"]);
    }
  }

  lemma NoneIsPromoted(json: JsonMap)
    ensures NoneOf(json, {"entity_id", "type", "subtype", "alias", "created_at", "updated_at"}) <==>
            forall k | k in json :: k !in ["entity_id", "type", "subtype", "alias", "created_at", "updated_at"]
  {
    if forall k | k in json :: k !in ["entity_id", "type", "subtype", "alias", "created_at", "updated_at"] {
      forall k | k in json.Keys ensures k !in {"entity_id", "type", "subtype", "alias", "created_at", "updated_at"} {
        assert k in json;
      }
    }
  }

  lemma EntityIff(env: Env, typ: string, json: JsonMap)
    ensures EntityOk(env, typ, json) <==> EntityIsSound(env, typ, json)
  {
    NoneIsPromoted(json);
    if typ in ENTITY_TYPES && "components" in json && json["components"].Obj? {
      forall name | name in json["components"].fields
        ensures ComponentOk(env, typ, name, json["components"].fields[name])
           <==> ComponentIsSound(env, typ, name, json["components"].fields[name])
      {
        ComponentIff(env, typ, name, json["components"].fields[name]);
      }
      var c := json["components"].fields;
      assert ComponentsIn(json) == c;
      assert (forall name | name in c :: ComponentOk(env, typ, name, c[name]))
        <==> (forall name | name in c :: ComponentIsSound(env, typ, name, c[name]));
    }
  }

  // ---------------------------------------------------------------- observations

  ghost predicate ObservationIsSound(env: Env, objects: map<string, Object>, id: string, json: JsonMap) {
    && "state" in json && json["state"] in [Str("active"), Str("inactive"), Str("ended")]
    && ("latest_sighting" in json ==> env.sightingsReady && env.sightingOk(json["latest_sighting"]))
    && forall named | "sightings_object_id" in json && json["sightings_object_id"] == Str(named) && named != "" ::
         && named in objects && objects[named].typ == "observation_sighting_history"
         && objects[named].ownerType == "observation" && objects[named].ownerId == id
  }

  lemma ObservationIff(env: Env, objects: map<string, Object>, id: string, json: JsonMap)
    ensures ObservationOk(env, objects, id, json) <==> ObservationIsSound(env, objects, id, json)
  {
    if ObservationIsSound(env, objects, id, json) && Lookup(json, "sightings_object_id").Str? {
      assert json["sightings_object_id"] == Str(json["sightings_object_id"].s);
    }
  }

  // ---------------------------------------------------------------- objects

  /** What is left of a string without the spaces at its ends. */
  ghost predicate IsTrimmed(s: string, r: string) {
    exists i, j | 0 <= i <= j <= |s| ::
      && r == s[i..j] && (forall k | 0 <= k < i || j <= k < |s| :: IsSpace(s[k]))
      && (r == "" || (!IsSpace(r[0]) && !IsSpace(r[|r| - 1])))
  }

  lemma {:induction false} TrimLeftIs(s: string) returns (i: nat)
    ensures i <= |s| && TrimLeft(s) == s[i..] && (forall k | 0 <= k < i :: IsSpace(s[k])) && (i < |s| ==> !IsSpace(s[i]))
  {
    i := 0;
    if s != "" && IsSpace(s[0]) {
      var rest := TrimLeftIs(s[1..]);
      i := rest + 1;
      assert forall k | 1 <= k < i :: s[k] == s[1..][k - 1];
    }
  }

  lemma {:induction false} TrimRightIs(s: string) returns (j: nat)
    ensures j <= |s| && TrimRight(s) == s[..j] && (forall k | j <= k < |s| :: IsSpace(s[k])) && (j > 0 ==> !IsSpace(s[j - 1]))
  {
    j := |s|;
    if s != "" && IsSpace(s[|s| - 1]) {
      var rest := TrimRightIs(s[..|s| - 1]);
      j := rest;
    }
  }

  lemma TrimSpaceIs(s: string)
    ensures IsTrimmed(s, TrimSpace(s))
  {
    var i := TrimLeftIs(s);
    var j := TrimRightIs(s[i..]);
    assert TrimSpace(s) == s[i..i + j];
    assert forall k | i + j <= k < |s| :: s[k] == s[i..][k - i];
  }

  lemma TrimmingAgain(s: string)
    ensures TrimSpace(TrimSpace(s)) == TrimSpace(s)
  {
    TrimSpaceIs(s);
    var r := TrimSpace(s);
    if r != "" {
      assert TrimLeft(r) == r && TrimRight(r) == r;
    }
  }

  ghost predicate ObjectIsSound(s: StoreState, id: string, typ: string, ownerType: string, ownerId: string, json: JsonMap) {
    && IsValidId(id) && typ != "" && ownerId != ""
    && ((ownerType == "entity" && ownerId in s.entities) || (ownerType == "observation" && ownerId in s.observations)
        || (ownerType == "task" && ownerId in s.tasks)
        || (ownerType == "system" && ownerId == "active_command_catalog"))
    && (typ == "observation_sighting_history" ==> ownerType == "observation")
    && (typ == "fusion_provenance" ==> ownerType == "entity" && s.entities[ownerId].typ == "track")
    && forall k | k in json :: k !in ["object_id", "type", "owner_type", "owner_id", "created_at", "updated_at"]
  }

  lemma ObjectIff(s: StoreState, id: string, rawType: string, ownerType: string, ownerId: string, json: JsonMap)
    ensures ObjectOk(s, id, rawType, ownerType, ownerId, json)
       <==> ObjectIsSound(s, id, TrimSpace(rawType), ownerType, ownerId, json)
  {
  }

  // ---------------------------------------------------------------- what an asset supports

  predicate Supports(asset: Entity, typ: string) {
    && "components" in asset.json && asset.json["components"].Obj?
    && "supported_commands" in asset.json["components"].fields && asset.json["components"].fields["supported_commands"].Obj?
    && var supported := asset.json["components"].fields["supported_commands"].fields;
    && "commands" in supported && supported["commands"].Arr?
    && (forall i | 0 <= i < |supported["commands"].items| :: supported["commands"].items[i].Str?)
    && Str(typ) in supported["commands"].items
  }

  lemma SupportsIff(asset: Entity, typ: string)
    ensures AssetSupports(asset, typ) <==> Supports(asset, typ)
  {
    if ComponentsOf(asset.json).Some? && Lookup(ComponentsOf(asset.json).value, "supported_commands").Obj? {
      var v := Lookup(ComponentsOf(asset.json).value["supported_commands"].fields, "commands");
      if ReadStringSlice(v).Some? {
        var strs := ReadStringSlice(v).value;
        assert forall i | 0 <= i < |strs| :: v.items[i] == Str(strs[i]);
        assert typ in strs <==> Str(typ) in v.items;
      }
    }
  }
}
