/** The command-parameter schema checker and the value validator: a restricted form of
    section 6 of JSON Schema Validation (draft 2020-12). Go visits map keys in no fixed
    order; the loops below pick them arbitrarily. */
module Schema {
  import opened Float64
  import opened Json
  import opened NumericBounds
  import opened SchemaShape

  const SUPPORTED: set<string> := {"type", "properties", "required", "additionalProperties", "items", "enum",
    "minimum", "maximum", "minLength", "maxLength", "pattern", "minItems", "maxItems"}

  const SIZE_KEYWORDS: seq<string> := ["minItems", "maxItems", "minLength", "maxLength"]

  const SIMPLE_TYPES: set<string> := {"string", "number", "integer", "boolean", "null", ""}

  /** Go's `regexp`, left uninterpreted. */
  datatype Regex = Regex(compiles: string -> bool, matches: (string, string) -> bool)

  datatype Step = Property(name: string) | Index(i: nat)

  datatype FieldError = FieldError(path: seq<Step>, code: string)

  datatype DefectKind = PropertyNotAnObject | BadPattern | UnknownType

  /** `ValidateValue` returns nil, blames the value, or blames the schema. */
  datatype Verdict = Valid | Invalid(path: seq<Step>, code: string) | Defect(kind: DefectKind)

  function TypeOf(schema: JsonMap): string {
    if "type" in schema && schema["type"].Str? then schema["type"].s else ""
  }

  // ---------------------------------------------------------------- acceptance of schemas

  predicate IsIntegerKeyword(v: Value) {
    v.Int? || (v.Float? && IsIntegral(v.x) && InSafeRange(v.x))
  }

  predicate IsSizeKeyword(v: Value) {
    IsIntegerKeyword(v) && NumberToInt64(v).value >= 0
  }

  ghost predicate IsStringArray(v: Value) {
    v.StrArr? || (v.Arr? && forall i :: 0 <= i < |v.items| ==> v.items[i].Str?)
  }

  ghost predicate IsNonEmptyStringArray(v: Value) {
    IsStringArray(v) && v != Arr([]) && v != StrArr([])
  }

  ghost predicate KeywordValuesOk(schema: JsonMap) {
    && ("required" in schema ==> IsStringArray(schema["required"]))
    && ("minimum" in schema ==> IsAcceptedBound(schema["minimum"]))
    && ("maximum" in schema ==> IsAcceptedBound(schema["maximum"]))
    && (forall k | k in SIZE_KEYWORDS && k in schema :: IsSizeKeyword(schema[k]))
    && ("additionalProperties" in schema ==> schema["additionalProperties"].Bool?)
    && ("enum" in schema ==> IsNonEmptyStringArray(schema["enum"]))
  }

  ghost predicate PropertiesOk(properties: Value)
    decreases properties, 0
  {
    && properties.Obj?
    && forall k | k in properties.fields :: properties.fields[k].Obj? && Accepted(properties.fields[k])
  }

  ghost predicate SubschemasOk(schema: Value)
    requires schema.Obj?
    decreases schema, 0
  {
    var s := schema.fields;
    match TypeOf(s)
    case "object" => ("properties" in s ==> PropertiesOk(s["properties"])) && "items" !in s
    case "array" => "items" in s ==> s["items"].Obj? && Accepted(s["items"])
    case t => t in SIMPLE_TYPES
  }

  /** The schemas `ValidateSchema` accepts. */
  ghost predicate Accepted(schema: Value)
    requires schema.Obj?
    decreases schema, 1
  {
    var s := schema.fields;
    && s.Keys <= SUPPORTED
    && ("type" in s ==> s["type"].Str?)
    && ("type" !in s ==> s == map[])
    && SubschemasOk(schema)
    && KeywordValuesOk(s)
  }

  // ---------------------------------------------------------------- acceptance, place by place

  lemma CountsAreSizes(v: Value)
    ensures IsCount(v) <==> IsSizeKeyword(v)
  {
  }

  lemma KeywordsAreWellFormed(v: Value)
    requires v.Obj? && v.fields.Keys <= SUPPORTED
    ensures KeywordValuesOk(v.fields) <==>
            var s := v.fields;
            && ("required" in s ==> IsListOfStrings(s["required"]))
            && ("enum" in s ==> IsListOfStrings(s["enum"]) && s["enum"] != Arr([]) && s["enum"] != StrArr([]))
            && ("additionalProperties" in s ==> s["additionalProperties"].Bool?)
            && ("minimum" in s ==> IsSafeNumber(s["minimum"])) && ("maximum" in s ==> IsSafeNumber(s["maximum"]))
            && ("minItems" in s ==> IsCount(s["minItems"])) && ("maxItems" in s ==> IsCount(s["maxItems"]))
            && ("minLength" in s ==> IsCount(s["minLength"])) && ("maxLength" in s ==> IsCount(s["maxLength"]))
  {
    var s := v.fields;
    assert forall k | k in SIZE_KEYWORDS && k in s :: IsCount(s[k]) <==> IsSizeKeyword(s[k]);
    assert SIZE_KEYWORDS[0] == "minItems" && SIZE_KEYWORDS[1] == "maxItems";
    assert SIZE_KEYWORDS[2] == "minLength" && SIZE_KEYWORDS[3] == "maxLength";
  }

  /** The part of acceptance that looks at one schema only. */
  lemma WellFormedIff(v: Value)
    ensures IsWellFormed(v) <==>
            && v.Obj? && v.fields.Keys <= SUPPORTED
            && ("type" in v.fields ==> v.fields["type"].Str?) && ("type" !in v.fields ==> v.fields == map[])
            && TypeOf(v.fields) in SIMPLE_TYPES + {"object", "array"}
            && (TypeOf(v.fields) == "object" ==>
                  ("properties" in v.fields ==> v.fields["properties"].Obj?) && "items" !in v.fields)
            && KeywordValuesOk(v.fields)
  {
    if v.Obj? && v.fields.Keys <= SUPPORTED {
      KeywordsAreWellFormed(v);
    }
  }

  lemma AcceptedIsWellFormed(schema: Value)
    requires schema.Obj? && Accepted(schema)
    ensures IsWellFormed(schema)
  {
    WellFormedIff(schema);
    assert SubschemasOk(schema);
    if TypeOf(schema.fields) == "object" && "properties" in schema.fields {
      assert PropertiesOk(schema.fields["properties"]);
    }
  }

  lemma {:induction false} AcceptedAlong(schema: Value, way: seq<Turn>)
    requires schema.Obj? && Accepted(schema) && SubschemaAt(schema, way).Some?
    ensures IsWellFormed(SubschemaAt(schema, way).value)
    decreases |way|
  {
    AcceptedIsWellFormed(schema);
    if way != [] {
      assert SubschemasOk(schema);
      match way[0]
      case Into(name) =>
        assert PropertiesOk(schema.fields["properties"]);
        AcceptedAlong(schema.fields["properties"].fields[name], way[1..]);
      case Items => AcceptedAlong(schema.fields["items"], way[1..]);
    }
  }

  lemma WellFormedBelow(schema: Value, turn: Turn)
    requires IsWellFormedThroughout(schema) && SubschemaAt(schema, [turn]).Some?
    ensures IsWellFormedThroughout(SubschemaAt(schema, [turn]).value)
  {
    var below := SubschemaAt(schema, [turn]).value;
    forall way | SubschemaAt(below, way).Some? ensures IsWellFormed(SubschemaAt(below, way).value) {
      assert ([turn] + way)[1..] == way && [turn][1..] == [];
      assert SubschemaAt(schema, [turn] + way) == SubschemaAt(below, way);
    }
  }

  lemma PropertyIsWellFormed(schema: Value, k: string)
    requires IsWellFormedThroughout(schema) && TypeField(schema) == Str("object")
    requires Lookup(schema.fields, "properties").Obj? && k in schema.fields["properties"].fields
    ensures IsWellFormedThroughout(schema.fields["properties"].fields[k])
  {
    assert [Into(k)][1..] == [];
    assert SubschemaAt(schema, [Into(k)]) == Some(schema.fields["properties"].fields[k]);
    WellFormedBelow(schema, Into(k));
  }

  lemma ItemsAreWellFormed(schema: Value)
    requires IsWellFormedThroughout(schema) && TypeField(schema) == Str("array") && "items" in schema.fields
    ensures IsWellFormedThroughout(schema.fields["items"])
  {
    assert [Items][1..] == [];
    assert SubschemaAt(schema, [Items]) == Some(schema.fields["items"]);
    WellFormedBelow(schema, Items);
  }

  lemma WellFormedAbove(schema: Value)
    requires IsWellFormed(schema) && SubschemasOk(schema)
    ensures Accepted(schema)
  {
    WellFormedIff(schema);
  }

  lemma {:induction false} WellFormedIsAccepted(schema: Value)
    requires IsWellFormedThroughout(schema)
    ensures schema.Obj? && Accepted(schema)
    decreases schema
  {
    assert SubschemaAt(schema, []) == Some(schema);
    var s := schema.fields;
    if TypeOf(s) == "object" && "properties" in s {
      forall k | k in s["properties"].fields
        ensures s["properties"].fields[k].Obj? && Accepted(s["properties"].fields[k])
      {
        PropertyIsWellFormed(schema, k);
        WellFormedIsAccepted(s["properties"].fields[k]);
      }
      assert PropertiesOk(s["properties"]);
    }
    if TypeOf(s) == "array" && "items" in s {
      ItemsAreWellFormed(schema);
      WellFormedIsAccepted(s["items"]);
    }
    WellFormedAbove(schema);
  }

  /** A schema is accepted exactly if every subschema that a value can lead to is well formed. */
  lemma AcceptedIff(schema: Value)
    requires schema.Obj?
    ensures Accepted(schema) <==> IsWellFormedThroughout(schema)
  {
    if Accepted(schema) {
      forall way | SubschemaAt(schema, way).Some? ensures IsWellFormed(SubschemaAt(schema, way).value) {
        AcceptedAlong(schema, way);
      }
    }
    if IsWellFormedThroughout(schema) {
      WellFormedIsAccepted(schema);
    }
  }

  method CheckRequired(schema: JsonMap, path: seq<Step>) returns (fields: seq<FieldError>)
    ensures fields == [] <==> ("required" in schema ==> IsStringArray(schema["required"]))
  {
    fields := [];
    if "required" in schema {
      var bad := FieldError(path + [Property("required")], "invalid_type");
      match schema["required"] {
        case Arr(items) =>
          for i := 0 to |items|
            invariant fields == [] && forall j :: 0 <= j < i ==> items[j].Str?
          {
            if !items[i].Str? {
              fields := fields + [bad];
              break;
            }
          }
        case StrArr(_) =>
        case _ => fields := [bad];
      }
    }
  }

  method CheckBound(schema: JsonMap, key: string, path: seq<Step>) returns (fields: seq<FieldError>)
    ensures fields == [] <==> (key in schema ==> IsAcceptedBound(schema[key]))
  {
    fields := [];
    if key in schema {
      if !IsNumeric(schema[key]) {
        fields := [FieldError(path + [Property(key)], "invalid_type")];
      } else if !IsAcceptedBound(schema[key]) {
        fields := [FieldError(path + [Property(key)], "invalid_value")];
      }
    }
  }

  method CheckSizes(schema: JsonMap, path: seq<Step>) returns (fields: seq<FieldError>)
    ensures fields == [] <==> forall k | k in SIZE_KEYWORDS && k in schema :: IsSizeKeyword(schema[k])
  {
    fields := [];
    for i := 0 to |SIZE_KEYWORDS|
      invariant fields == [] <==> forall k | k in SIZE_KEYWORDS[..i] && k in schema :: IsSizeKeyword(schema[k])
    {
      var key := SIZE_KEYWORDS[i];
      assert SIZE_KEYWORDS[..i + 1] == SIZE_KEYWORDS[..i] + [key];
      if key in schema {
        if !IsIntegerKeyword(schema[key]) {
          fields := fields + [FieldError(path + [Property(key)], "invalid_type")];
        } else if !IsSizeKeyword(schema[key]) {
          fields := fields + [FieldError(path + [Property(key)], "invalid_value")];
        }
      }
    }
    assert SIZE_KEYWORDS[..|SIZE_KEYWORDS|] == SIZE_KEYWORDS;
  }

  method CheckEnum(schema: JsonMap, path: seq<Step>) returns (fields: seq<FieldError>)
    ensures fields == [] <==> ("enum" in schema ==> IsNonEmptyStringArray(schema["enum"]))
  {
    fields := [];
    if "enum" in schema {
      var here := path + [Property("enum")];
      match schema["enum"] {
        case Arr(items) =>
          if |items| == 0 {
            fields := fields + [FieldError(here, "invalid_value")];
          }
          for i := 0 to |items|
            invariant forall j :: 0 <= j < i ==> items[j].Str?
            invariant fields == [] <==> |items| > 0
          {
            if !items[i].Str? {
              fields := fields + [FieldError(here, "invalid_type")];
              break;
            }
          }
        case StrArr(strs) =>
          if |strs| == 0 {
            fields := [FieldError(here, "invalid_value")];
          }
        case _ => fields := [FieldError(here, "invalid_type")];
      }
    }
  }

  /** `appendSchemaKeywordValueErrors`. */
  method CheckKeywordValues(schema: JsonMap, path: seq<Step>) returns (fields: seq<FieldError>)
    ensures fields == [] <==> KeywordValuesOk(schema)
  {
    var required := CheckRequired(schema, path);
    var minimum := CheckBound(schema, "minimum", path);
    var maximum := CheckBound(schema, "maximum", path);
    var sizes := CheckSizes(schema, path);
    var additional := [];
    if "additionalProperties" in schema && !schema["additionalProperties"].Bool? {
      additional := [FieldError(path + [Property("additionalProperties")], "invalid_type")];
    }
    var enum := CheckEnum(schema, path);
    fields := required + minimum + maximum + sizes + additional + enum;
  }

  method CheckKeys(schema: JsonMap, path: seq<Step>) returns (fields: seq<FieldError>)
    ensures fields == [] <==> schema.Keys <= SUPPORTED
  {
    fields := [];
    var todo := schema.Keys;
    while todo != {}
      invariant todo <= schema.Keys
      invariant fields == [] <==> schema.Keys - todo <= SUPPORTED
    {
      var key :| key in todo;
      todo := todo - {key};
      assert schema.Keys - todo == (schema.Keys - todo - {key}) + {key};
      if key !in SUPPORTED {
        fields := fields + [FieldError(path + [Property(key)], "invalid_value")];
      }
    }
  }

  method HasConstraintKeywords(schema: JsonMap) returns (has: bool)
    ensures has <==> exists k :: k in schema && k != "type" && k in SUPPORTED
  {
    var todo := schema.Keys;
    while todo != {}
      invariant todo <= schema.Keys
      invariant forall k | k in schema.Keys - todo :: k == "type" || k !in SUPPORTED
    {
      var key :| key in todo;
      todo := todo - {key};
      if key != "type" && key in SUPPORTED {
        return true;
      }
    }
    return false;
  }

  method CheckProperties(properties: Value, path: seq<Step>) returns (fields: seq<FieldError>)
    ensures fields == [] <==> PropertiesOk(properties)
    decreases properties, 0
  {
    if !properties.Obj? {
      return [FieldError(path, "invalid_type")];
    }
    fields := [];
    var todo := properties.fields.Keys;
    while todo != {}
      invariant todo <= properties.fields.Keys
      invariant fields == [] <==>
        forall k | k in properties.fields.Keys - todo :: properties.fields[k].Obj? && Accepted(properties.fields[k])
    {
      var name :| name in todo;
      todo := todo - {name};
      var raw := properties.fields[name];
      if !raw.Obj? {
        fields := fields + [FieldError(path + [Property(name)], "invalid_type")];
      } else {
        var nested := ValidateSchema(Some(raw), path + [Property(name)]);
        fields := fields + nested;
      }
    }
  }

  /** `ValidateSchema`. `None` is the nil schema. No field errors means nil is returned. */
  method ValidateSchema(schema: Option<Value>, path: seq<Step>) returns (fields: seq<FieldError>)
    requires schema.Some? ==> schema.value.Obj?
    ensures fields == [] <==> schema.Some? && Accepted(schema.value)
    ensures fields == [] <==> schema.Some? && IsWellFormedThroughout(schema.value)
    decreases schema.GetOr(Null), 1
  {
    if schema.None? {
      return [FieldError(path, "required")];
    }
    AcceptedIff(schema.value);
    var s := schema.value.fields;
    var keys := CheckKeys(s, path);
    fields := keys;
    var schemaType := TypeOf(s);
    if "type" in s && !s["type"].Str? {
      fields := fields + [FieldError(path + [Property("type")], "invalid_type")];
    }
    var hasConstraints := HasConstraintKeywords(s);
    if "type" !in s && hasConstraints {
      fields := fields + [FieldError(path + [Property("type")], "required")];
    }
    assert fields == [] <==> s.Keys <= SUPPORTED && ("type" in s ==> s["type"].Str?) && ("type" !in s ==> s == map[]) by {
      if "type" !in s && !hasConstraints && s.Keys <= SUPPORTED {
        assert s.Keys == {};
      }
    }
    ghost var before := fields;
    match schemaType {
      case "object" =>
        if "properties" in s {
          var nested := CheckProperties(s["properties"], path + [Property("properties")]);
          fields := fields + nested;
        }
        if "items" in s {
          fields := fields + [FieldError(path + [Property("items")], "invalid_value")];
        }
      case "array" =>
        if "items" in s {
          if !s["items"].Obj? {
            fields := fields + [FieldError(path + [Property("items")], "invalid_type")];
          } else {
            var nested := ValidateSchema(Some(s["items"]), path + [Property("items")]);
            fields := fields + nested;
          }
        }
      case _ =>
        if schemaType !in SIMPLE_TYPES {
          fields := fields + [FieldError(path + [Property("type")], "invalid_value")];
        }
    }
    assert fields == [] <==> before == [] && SubschemasOk(schema.value);
    var values := CheckKeywordValues(s, path);
    fields := fields + values;
  }

  // ---------------------------------------------------------------- satisfaction

  /** A size keyword whose value cannot be read imposes nothing. */
  predicate SizeAtLeast(schema: JsonMap, key: string, size: nat) {
    key in schema && NumberToInt64(schema[key]).Some? ==> NumberToInt64(schema[key]).value <= size
  }

  predicate SizeAtMost(schema: JsonMap, key: string, size: nat) {
    key in schema && NumberToInt64(schema[key]).Some? ==> size <= NumberToInt64(schema[key]).value
  }

  predicate BoundOk(schema: JsonMap, key: string, n: Number, isMax: bool) {
    key in schema ==> WithinBound(schema[key], n, isMax)
  }

  function Properties(schema: JsonMap): JsonMap {
    if Lookup(schema, "properties").Obj? then schema["properties"].fields else map[]
  }

  ghost predicate RequiredPresent(schema: JsonMap, members: JsonMap) {
    match ToStringSlice(Lookup(schema, "required"))
    case Some(required) => forall i :: 0 <= i < |required| ==> required[i] in members
    case None => true
  }

  ghost predicate MemberOk(rx: Regex, schema: JsonMap, key: string, child: Value)
    decreases child, 1
  {
    if key in Properties(schema) then
      Properties(schema)[key].Obj? && Satisfies(rx, Properties(schema)[key].fields, child)
    else
      Lookup(schema, "additionalProperties") != Bool(false)
  }

  ghost predicate StringOk(rx: Regex, schema: JsonMap, s: string) {
    && SizeAtLeast(schema, "minLength", |s|)
    && SizeAtMost(schema, "maxLength", |s|)
    && (Lookup(schema, "pattern").Str? ==> rx.compiles(schema["pattern"].s) && rx.matches(schema["pattern"].s, s))
    && (ToStringSlice(Lookup(schema, "enum")).Some? ==> s in ToStringSlice(Lookup(schema, "enum")).value)
  }

  ghost predicate NumberOk(schema: JsonMap, v: Value, integer: bool) {
    match AsNumber(v)
    case None => false
    case Some(n) => (integer ==> n.isInt) && BoundOk(schema, "minimum", n, false) && BoundOk(schema, "maximum", n, true)
  }

  /** What a value must be for a schema, well formed or not, to let it through. */
  ghost predicate Satisfies(rx: Regex, schema: JsonMap, v: Value)
    decreases v, 0
  {
    match TypeOf(schema)
    case "object" =>
      && v.Obj? && RequiredPresent(schema, v.fields)
      && forall k | k in v.fields :: MemberOk(rx, schema, k, v.fields[k])
    case "array" =>
      && v.Arr? && SizeAtLeast(schema, "minItems", |v.items|) && SizeAtMost(schema, "maxItems", |v.items|)
      && (Lookup(schema, "items").Obj? ==>
            forall i | 0 <= i < |v.items| :: Satisfies(rx, schema["items"].fields, v.items[i]))
    case "string" => v.Str? && StringOk(rx, schema, v.s)
    case "number" => NumberOk(schema, v, false)
    case "integer" => NumberOk(schema, v, true)
    case "boolean" => v.Bool?
    case "null" => v.Null?
    case "" => true
    case _ => false
  }

  /** Every pattern the validator can reach compiles. */
  ghost predicate PatternsCompile(rx: Regex, schema: Value)
    requires schema.Obj?
    decreases schema
  {
    var s := schema.fields;
    && (Lookup(s, "pattern").Str? ==> rx.compiles(s["pattern"].s))
    && ("items" in s && s["items"].Obj? ==> PatternsCompile(rx, s["items"]))
    && ("properties" in s && s["properties"].Obj? ==>
          forall k | k in s["properties"].fields ::
            s["properties"].fields[k].Obj? ==> PatternsCompile(rx, s["properties"].fields[k]))
  }

  ghost predicate NeverDefective(rx: Regex, schema: Value)
    requires schema.Obj?
  {
    Accepted(schema) && PatternsCompile(rx, schema)
  }

  method CheckRequiredPresent(schema: JsonMap, members: JsonMap) returns (missing: Option<string>)
    ensures missing.None? <==> RequiredPresent(schema, members)
  {
    var required := ToStringSlice(Lookup(schema, "required")).GetOr([]);
    for i := 0 to |required|
      invariant forall j :: 0 <= j < i ==> required[j] in members
    {
      if required[i] !in members {
        return Some(required[i]);
      }
    }
    return None;
  }

  lemma AcceptedProperty(schema: JsonMap, key: string)
    requires Accepted(Obj(schema)) && TypeOf(schema) == "object" && key in Properties(schema)
    ensures Properties(schema)[key].Obj? && Accepted(Properties(schema)[key])
  {
    assert SubschemasOk(Obj(schema));
    assert PropertiesOk(schema["properties"]);
  }

  lemma AcceptedItems(schema: JsonMap)
    requires Accepted(Obj(schema)) && TypeOf(schema) == "array" && "items" in schema
    ensures schema["items"].Obj? && Accepted(schema["items"])
  {
    assert SubschemasOk(Obj(schema));
  }

  lemma AcceptedType(schema: JsonMap)
    requires Accepted(Obj(schema))
    ensures TypeOf(schema) in SIMPLE_TYPES + {"object", "array"}
  {
    assert SubschemasOk(Obj(schema));
  }

  method ValidateMembers(rx: Regex, schema: JsonMap, v: Value, path: seq<Step>) returns (r: Verdict)
    requires v.Obj?
    ensures r.Valid? <==> forall k | k in v.fields :: MemberOk(rx, schema, k, v.fields[k])
    ensures Accepted(Obj(schema)) && TypeOf(schema) == "object" && r.Defect? ==> r.kind.BadPattern?
    ensures NeverDefective(rx, Obj(schema)) && TypeOf(schema) == "object" ==> !r.Defect?
    decreases v, 0
  {
    var todo := v.fields.Keys;
    while todo != {}
      invariant todo <= v.fields.Keys
      invariant forall k | k in v.fields.Keys - todo :: MemberOk(rx, schema, k, v.fields[k])
    {
      var key :| key in todo;
      todo := todo - {key};
      if key !in Properties(schema) {
        if Lookup(schema, "additionalProperties") == Bool(false) {
          return Invalid(path + [Property(key)], "unknown_field");
        }
      } else {
        var nested := Properties(schema)[key];
        if Accepted(Obj(schema)) && TypeOf(schema) == "object" {
          AcceptedProperty(schema, key);
        }
        if !nested.Obj? {
          return Defect(PropertyNotAnObject);
        }
        r := ValidateValue(rx, nested.fields, v.fields[key], path + [Property(key)]);
        if !r.Valid? {
          return;
        }
      }
    }
    return Valid;
  }

  method ValidateItems(rx: Regex, schema: JsonMap, v: Value, path: seq<Step>) returns (r: Verdict)
    requires v.Arr? && Lookup(schema, "items").Obj?
    ensures r.Valid? <==> forall i | 0 <= i < |v.items| :: Satisfies(rx, schema["items"].fields, v.items[i])
    ensures Accepted(schema["items"]) && r.Defect? ==> r.kind.BadPattern?
    ensures NeverDefective(rx, schema["items"]) ==> !r.Defect?
    decreases v, 0
  {
    for i := 0 to |v.items|
      invariant forall j | 0 <= j < i :: Satisfies(rx, schema["items"].fields, v.items[j])
    {
      r := ValidateValue(rx, schema["items"].fields, v.items[i], path + [Index(i)]);
      if !r.Valid? {
        return;
      }
    }
    return Valid;
  }

  method ValidateString(rx: Regex, schema: JsonMap, s: string, path: seq<Step>) returns (r: Verdict)
    ensures r.Valid? <==> StringOk(rx, schema, s)
    ensures r.Defect? ==> r.kind.BadPattern? && Lookup(schema, "pattern").Str? && !rx.compiles(schema["pattern"].s)
  {
    if !SizeAtLeast(schema, "minLength", |s|) || !SizeAtMost(schema, "maxLength", |s|) {
      return Invalid(path, "out_of_range");
    }
    var pattern := Lookup(schema, "pattern");
    if pattern.Str? {
      if !rx.compiles(pattern.s) {
        return Defect(BadPattern);
      }
      if !rx.matches(pattern.s, s) {
        return Invalid(path, "invalid_value");
      }
    }
    var enum := ToStringSlice(Lookup(schema, "enum"));
    if enum.Some? && s !in enum.value {
      return Invalid(path, "invalid_value");
    }
    return Valid;
  }

  method ValidateNumber(schema: JsonMap, v: Value, integer: bool, path: seq<Step>) returns (r: Verdict)
    ensures r.Valid? <==> NumberOk(schema, v, integer)
    ensures !r.Defect?
  {
    var number := AsNumber(v);
    if number.None? || (integer && !number.value.isInt) {
      return Invalid(path, "invalid_type");
    }
    if "minimum" in schema && !WithinBound(schema["minimum"], number.value, false) {
      return Invalid(path, "out_of_range");
    }
    if "maximum" in schema && !WithinBound(schema["maximum"], number.value, true) {
      return Invalid(path, "out_of_range");
    }
    return Valid;
  }

  /** `ValidateValue`: whatever order the maps are walked in, a value passes exactly when it
      satisfies the schema, and an accepted schema is blamed only for a pattern. */
  method ValidateValue(rx: Regex, schema: JsonMap, v: Value, path: seq<Step>) returns (r: Verdict)
    ensures r.Valid? <==> Satisfies(rx, schema, v)
    ensures Accepted(Obj(schema)) && r.Defect? ==> r.kind.BadPattern?
    ensures NeverDefective(rx, Obj(schema)) ==> !r.Defect?
    decreases v, 1
  {
    if Accepted(Obj(schema)) {
      AcceptedType(schema);
      if TypeOf(schema) == "array" && "items" in schema {
        AcceptedItems(schema);
      }
    }
    match TypeOf(schema) {
      case "object" =>
        if !v.Obj? {
          return Invalid(path, "invalid_type");
        }
        var missing := CheckRequiredPresent(schema, v.fields);
        if missing.Some? {
          return Invalid(path + [Property(missing.value)], "required");
        }
        r := ValidateMembers(rx, schema, v, path);
      case "array" =>
        if !v.Arr? {
          return Invalid(path, "invalid_type");
        }
        if !SizeAtLeast(schema, "minItems", |v.items|) || !SizeAtMost(schema, "maxItems", |v.items|) {
          return Invalid(path, "out_of_range");
        }
        if !Lookup(schema, "items").Obj? {
          return Valid;
        }
        r := ValidateItems(rx, schema, v, path);
      case "string" =>
        if !v.Str? {
          return Invalid(path, "invalid_type");
        }
        r := ValidateString(rx, schema, v.s, path);
      case "number" => r := ValidateNumber(schema, v, false, path);
      case "integer" => r := ValidateNumber(schema, v, true, path);
      case "boolean" => r := if v.Bool? then Valid else Invalid(path, "invalid_type");
      case "null" => r := if v.Null? then Valid else Invalid(path, "invalid_type");
      case "" => r := Valid;
      case _ => r := Defect(UnknownType);
    }
  }
}
