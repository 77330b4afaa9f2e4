/** Which schemas are well formed, place by place: the subschemas a validator can reach, and what each of them
    has to look like. Nothing here is recursive but the way to a place. */
module SchemaShape {
  import opened Json

  /** A step into a schema: to the schema of a named property, or to that of the items. */
  datatype Turn = Into(name: string) | Items

  function TypeField(v: Value): Value {
    if v.Obj? && "type" in v.fields then v.fields["type"] else Null
  }

  /** The subschema at the end of a way that a value of the schema can take. */
  function SubschemaAt(schema: Value, way: seq<Turn>): Option<Value> {
    if way == [] then Some(schema)
    else
      match way[0]
      case Into(name) =>
        if TypeField(schema) == Str("object") && Lookup(schema.fields, "properties").Obj?
           && name in schema.fields["properties"].fields
        then SubschemaAt(schema.fields["properties"].fields[name], way[1..])
        else None
      case Items =>
        if TypeField(schema) == Str("array") && "items" in schema.fields then SubschemaAt(schema.fields["items"], way[1..])
        else None
  }

  ghost predicate IsListOfStrings(v: Value) {
    v.StrArr? || (v.Arr? && forall x | x in v.items :: x.Str?)
  }

  predicate IsSafeNumber(v: Value) {
    v.Int? || (v.Float? && -9007199254740992.0 <= v.x <= 9007199254740992.0)
  }

  predicate IsCount(v: Value) {
    (v.Int? && v.i >= 0) || (v.Float? && 0.0 <= v.x <= 9007199254740992.0 && v.x == v.x.Floor as real)
  }

  /** What one schema must look like, whatever is below it. */
  ghost predicate IsWellFormed(v: Value) {
    && v.Obj?
    && var s := v.fields;
    && (forall k | k in s ::
          k in ["type", "properties", "required", "additionalProperties", "items", "enum", "minimum", "maximum",
                "minLength", "maxLength", "pattern", "minItems", "maxItems"])
    && (s != map[] ==>
          "type" in s && s["type"] in [Str("object"), Str("array"), Str("string"), Str("number"), Str("integer"),
                                       Str("boolean"), Str("null"), Str("")])
    && (TypeField(v) == Str("object") ==> ("properties" in s ==> s["properties"].Obj?) && "items" !in s)
    && ("required" in s ==> IsListOfStrings(s["required"]))
    && ("enum" in s ==> IsListOfStrings(s["enum"]) && s["enum"] != Arr([]) && s["enum"] != StrArr([]))
    && ("additionalProperties" in s ==> s["additionalProperties"].Bool?)
    && ("minimum" in s ==> IsSafeNumber(s["minimum"])) && ("maximum" in s ==> IsSafeNumber(s["maximum"]))
    && ("minItems" in s ==> IsCount(s["minItems"])) && ("maxItems" in s ==> IsCount(s["maxItems"]))
    && ("minLength" in s ==> IsCount(s["minLength"])) && ("maxLength" in s ==> IsCount(s["maxLength"]))
  }

  ghost predicate IsWellFormedThroughout(schema: Value) {
    forall way :: SubschemaAt(schema, way).Some? ==> IsWellFormed(SubschemaAt(schema, way).value)
  }
}
