/** What an accepted schema means in the terms of section 6 of JSON Schema Validation: every
    keyword its type consults is read and obeyed, numbers are compared exactly. */
module SchemaMeaning {
  import opened Float64
  import opened Json
  import opened NumericBounds
  import opened Schema
  import opened SchemaShape

  /** Section 6.3.1, 6.4.1 and the like: a keyword that cannot be read would fail the value. */
  ghost predicate ObeysMinSize(schema: JsonMap, key: string, size: nat) {
    key in schema ==> IsNumeric(schema[key]) && ExactValue(schema[key]) <= size as real
  }

  ghost predicate ObeysMaxSize(schema: JsonMap, key: string, size: nat) {
    key in schema ==> IsNumeric(schema[key]) && size as real <= ExactValue(schema[key])
  }

  /** Exactly within the bound; with `rounding`, or a float that passes beyond it as the bound is rounded. */
  ghost predicate ObeysBound(schema: JsonMap, key: string, v: Value, isMax: bool, rounding: bool)
    requires IsNumeric(v)
  {
    key in schema ==>
      && IsNumeric(schema[key])
      && (ExactlyWithin(schema[key], v, isMax) || (rounding && PassesBeyondBound(schema[key], v, isMax)))
  }

  ghost predicate Lists(strings: Value, s: string) {
    (strings.Arr? && Str(s) in strings.items) || (strings.StrArr? && s in strings.strs)
  }

  ghost predicate ConformsNumber(schema: JsonMap, v: Value, integer: bool, rounding: bool) {
    && IsNumeric(v)
    && (integer ==> v.Int? || (IsIntegral(v.x) && InSafeRange(v.x)))
    && ObeysBound(schema, "minimum", v, false, rounding) && ObeysBound(schema, "maximum", v, true, rounding)
  }

  ghost predicate ConformsString(rx: Regex, schema: JsonMap, s: string) {
    && ObeysMinSize(schema, "minLength", |s|) && ObeysMaxSize(schema, "maxLength", |s|)
    && ("enum" in schema ==> Lists(schema["enum"], s))
    && (Lookup(schema, "pattern").Str? ==> rx.compiles(schema["pattern"].s) && rx.matches(schema["pattern"].s, s))
  }

  ghost predicate ConformsMember(rx: Regex, schema: JsonMap, key: string, child: Value, rounding: bool)
    decreases child, 1
  {
    if "properties" in schema && schema["properties"].Obj? && key in schema["properties"].fields then
      && schema["properties"].fields[key].Obj?
      && Conforms(rx, schema["properties"].fields[key].fields, child, rounding)
    else
      "additionalProperties" in schema ==> schema["additionalProperties"] == Bool(true)
  }

  /** The value obeys the schema; without `rounding`, as the numbers are. */
  ghost predicate Conforms(rx: Regex, schema: JsonMap, v: Value, rounding: bool)
    decreases v, 0
  {
    match TypeOf(schema)
    case "object" =>
      && v.Obj?
      && ("required" in schema ==> forall f: string | Lists(schema["required"], f) :: f in v.fields)
      && ("properties" in schema ==> schema["properties"].Obj?)
      && forall k | k in v.fields :: ConformsMember(rx, schema, k, v.fields[k], rounding)
    case "array" =>
      && v.Arr? && ObeysMinSize(schema, "minItems", |v.items|) && ObeysMaxSize(schema, "maxItems", |v.items|)
      && ("items" in schema ==>
            && schema["items"].Obj?
            && forall i | 0 <= i < |v.items| :: Conforms(rx, schema["items"].fields, v.items[i], rounding))
    case "string" => v.Str? && ConformsString(rx, schema, v.s)
    case "number" => ConformsNumber(schema, v, false, rounding)
    case "integer" => ConformsNumber(schema, v, true, rounding)
    case "boolean" => v.Bool?
    case "null" => v.Null?
    case "" => true
    case _ => false
  }

  // ---------------------------------------------------------------- which schemas there are

  predicate IsScalar(v: Value) {
    TypeField(v) in [Str("string"), Str("number"), Str("integer"), Str("boolean"), Str("null")]
  }

  lemma FlatSchemaEndsThere(schema: Value, way: seq<Turn>)
    requires TypeField(schema) == Str("object") && way != [] && SubschemaAt(schema, way).Some?
    requires forall k | k in Properties(schema.fields) :: IsScalar(Properties(schema.fields)[k])
    ensures way[0].Into? && way[0].name in Properties(schema.fields)
    ensures SubschemaAt(schema, way) == Some(Properties(schema.fields)[way[0].name])
  {
    assert SubschemaAt(Properties(schema.fields)[way[0].name], way[1..]).Some?;
  }

  /** Every well-formed object schema over well-formed properties of scalar type is accepted. */
  lemma FlatSchemaIsAccepted(schema: Value)
    requires IsWellFormed(schema) && TypeField(schema) == Str("object")
    requires forall k | k in Properties(schema.fields) ::
               IsWellFormed(Properties(schema.fields)[k]) && IsScalar(Properties(schema.fields)[k])
    ensures Accepted(schema)
  {
    forall way: seq<Turn> | SubschemaAt(schema, way).Some? ensures IsWellFormed(SubschemaAt(schema, way).value) {
      if way != [] {
        FlatSchemaEndsThere(schema, way);
      }
    }
    AcceptedIff(schema);
  }

  function BoundedNumber(low: real, high: real): Value {
    Obj(map["type" := Str("number"), "minimum" := Float(low), "maximum" := Float(high)])
  }

  function OneProperty(name: string, schema: Value): Value {
    Obj(map["type" := Str("object"), "properties" := Obj(map[name := schema])])
  }

  lemma BoundedNumberIsWellFormed(low: real, high: real)
    requires InSafeRange(low) && InSafeRange(high)
    ensures IsWellFormed(BoundedNumber(low, high)) && IsScalar(BoundedNumber(low, high))
  {
  }

  lemma OnePropertyIsWellFormed(name: string, schema: Value)
    ensures IsWellFormed(OneProperty(name, schema)) && TypeField(OneProperty(name, schema)) == Str("object")
    ensures Properties(OneProperty(name, schema).fields) == map[name := schema]
  {
  }

  /** Such as one number between two safe bounds under any name. */
  lemma BoundedNumberIsAccepted(name: string, low: real, high: real)
    requires InSafeRange(low) && InSafeRange(high)
    ensures Accepted(OneProperty(name, BoundedNumber(low, high)))
  {
    BoundedNumberIsWellFormed(low, high);
    OnePropertyIsWellFormed(name, BoundedNumber(low, high));
    FlatSchemaIsAccepted(OneProperty(name, BoundedNumber(low, high)));
  }

  /** An accepted schema lets every value through exactly if it is empty or its type is the empty string:
      that type is accepted together with any keywords, and the validator then consults none of them. */
  lemma LetsAllThroughIff(rx: Regex, schema: JsonMap)
    requires Accepted(Obj(schema))
    ensures (forall v :: Satisfies(rx, schema, v)) <==> schema == map[] || schema["type"] == Str("")
  {
    AcceptedType(schema);
    if schema == map[] || schema["type"] == Str("") {
      assert TypeOf(schema) == "";
    } else {
      assert TypeOf(schema) != "";
      var refused := if TypeOf(schema) == "null" then Bool(true) else Null;
      assert !Satisfies(rx, schema, refused);
    }
  }

  lemma BlankTypeCounterexample(rx: Regex, v: Value)
    ensures var schema := map["type" := Str(""), "minimum" := Float(1.0)];
            Accepted(Obj(schema)) && Satisfies(rx, schema, v)
  {
    var schema := map["type" := Str(""), "minimum" := Float(1.0)];
    assert KeywordValuesOk(schema) && TypeOf(schema) == "" && SubschemasOk(Obj(schema));
  }

  /** Every number in the tree is one Go can hold. */
  ghost predicate AllRepresentable(v: Value)
    decreases v
  {
    && IsRepresentable(v)
    && (v.Arr? ==> forall i | 0 <= i < |v.items| :: AllRepresentable(v.items[i]))
    && (v.Obj? ==> forall k | k in v.fields :: AllRepresentable(v.fields[k]))
  }

  lemma SizesAgree(schema: JsonMap, key: string, size: nat)
    requires Accepted(Obj(schema)) && key in SIZE_KEYWORDS
    ensures SizeAtLeast(schema, key, size) <==> ObeysMinSize(schema, key, size)
    ensures SizeAtMost(schema, key, size) <==> ObeysMaxSize(schema, key, size)
  {
    if key in schema {
      assert IsSizeKeyword(schema[key]);
    }
  }

  lemma BoundsAgree(bound: Value, v: Value, n: Number, isMax: bool)
    requires IsAcceptedBound(bound) && IsRepresentable(bound) && IsRepresentable(v) && AsNumber(v) == Some(n)
    ensures WithinBound(bound, n, isMax) <==> ExactlyWithin(bound, v, isMax) || PassesBeyondBound(bound, v, isMax)
  {
    BoundIsExactIff(bound, v, n, isMax);
  }

  lemma NumbersAgree(schema: JsonMap, v: Value, integer: bool)
    requires Accepted(Obj(schema)) && AllRepresentable(Obj(schema)) && IsRepresentable(v)
    ensures NumberOk(schema, v, integer) <==> ConformsNumber(schema, v, integer, true)
  {
    if AsNumber(v).Some? {
      var n := AsNumber(v).value;
      if "minimum" in schema {
        assert AllRepresentable(schema["minimum"]);
        BoundsAgree(schema["minimum"], v, n, false);
      }
      if "maximum" in schema {
        assert AllRepresentable(schema["maximum"]);
        BoundsAgree(schema["maximum"], v, n, true);
      }
    }
  }

  lemma ListsIsSlice(v: Value, s: string)
    requires IsStringArray(v)
    ensures ToStringSlice(v).Some?
    ensures s in ToStringSlice(v).value <==> Lists(v, s)
  {
    var strs := ToStringSlice(v).value;
    if v.Arr? {
      if s in strs {
        var i :| 0 <= i < |strs| && strs[i] == s;
        assert v.items[i] == Str(s);
      }
      if Str(s) in v.items {
        var i :| 0 <= i < |v.items| && v.items[i] == Str(s);
        assert strs[i] == s;
      }
    }
  }

  lemma RequiredAgrees(schema: JsonMap, members: JsonMap)
    requires Accepted(Obj(schema))
    ensures RequiredPresent(schema, members)
       <==> ("required" in schema ==> forall f: string | Lists(schema["required"], f) :: f in members)
  {
    if "required" in schema {
      var strs := ToStringSlice(schema["required"]).value;
      forall f: string ensures f in strs <==> Lists(schema["required"], f) {
        ListsIsSlice(schema["required"], f);
      }
      if forall f: string | Lists(schema["required"], f) :: f in members {
        forall i | 0 <= i < |strs| ensures strs[i] in members {
          assert Lists(schema["required"], strs[i]);
        }
      }
    }
  }

  lemma StringsAgree(rx: Regex, schema: JsonMap, s: string)
    requires Accepted(Obj(schema))
    ensures StringOk(rx, schema, s) <==> ConformsString(rx, schema, s)
  {
    SizesAgree(schema, "minLength", |s|);
    SizesAgree(schema, "maxLength", |s|);
    if "enum" in schema {
      ListsIsSlice(schema["enum"], s);
    }
  }

  lemma {:induction false} MembersAgree(rx: Regex, schema: JsonMap, v: Value, key: string)
    requires Accepted(Obj(schema)) && TypeOf(schema) == "object" && AllRepresentable(Obj(schema))
    requires v.Obj? && key in v.fields && AllRepresentable(v)
    ensures MemberOk(rx, schema, key, v.fields[key]) <==> ConformsMember(rx, schema, key, v.fields[key], true)
    decreases v, 0
  {
    if key in Properties(schema) {
      AcceptedProperty(schema, key);
      assert AllRepresentable(schema["properties"]);
      AcceptedMeaning(rx, Properties(schema)[key].fields, v.fields[key]);
    }
  }

  /** On a schema `ValidateSchema` accepts, at any depth and for any value, the validator obeys every keyword
      the schema's type consults: nothing is dropped because it could not be read, and a bound is misjudged
      only for a float that passes beyond an int64 bound as that is rounded. */
  lemma {:induction false} AcceptedMeaning(rx: Regex, schema: JsonMap, v: Value)
    requires Accepted(Obj(schema)) && AllRepresentable(Obj(schema)) && AllRepresentable(v)
    ensures Satisfies(rx, schema, v) <==> Conforms(rx, schema, v, true)
    decreases v, 1
  {
    AcceptedType(schema);
    match TypeOf(schema)
    case "object" =>
      assert SubschemasOk(Obj(schema));
      assert "properties" in schema ==> PropertiesOk(schema["properties"]);
      if v.Obj? {
        RequiredAgrees(schema, v.fields);
        forall k | k in v.fields
          ensures MemberOk(rx, schema, k, v.fields[k]) <==> ConformsMember(rx, schema, k, v.fields[k], true)
        {
          MembersAgree(rx, schema, v, k);
        }
      }
    case "array" =>
      if v.Arr? {
        SizesAgree(schema, "minItems", |v.items|);
        SizesAgree(schema, "maxItems", |v.items|);
        if "items" in schema {
          AcceptedItems(schema);
          assert AllRepresentable(schema["items"]);
          forall i | 0 <= i < |v.items|
            ensures Satisfies(rx, schema["items"].fields, v.items[i])
               <==> Conforms(rx, schema["items"].fields, v.items[i], true)
          {
            AcceptedMeaning(rx, schema["items"].fields, v.items[i]);
          }
        }
      }
    case "string" =>
      if v.Str? {
        StringsAgree(rx, schema, v.s);
      }
    case "number" => NumbersAgree(schema, v, false);
    case "integer" => NumbersAgree(schema, v, true);
    case _ =>
  }

  // ---------------------------------------------------------------- where the meaning is exact

  /** Decoded JSON: its numbers are float64, so it holds no int64. */
  ghost predicate NoInts(v: Value)
    decreases v
  {
    && !v.Int?
    && (v.Arr? ==> forall i | 0 <= i < |v.items| :: NoInts(v.items[i]))
    && (v.Obj? ==> forall k | k in v.fields :: NoInts(v.fields[k]))
  }

  /** No float in the tree lies beyond the safe integers. */
  ghost predicate NoHugeFloats(v: Value)
    decreases v
  {
    && (v.Float? ==> InSafeRange(v.x))
    && (v.Arr? ==> forall i | 0 <= i < |v.items| :: NoHugeFloats(v.items[i]))
    && (v.Obj? ==> forall k | k in v.fields :: NoHugeFloats(v.fields[k]))
  }

  lemma {:induction false} RoundingIsIdle(rx: Regex, schema: JsonMap, v: Value)
    requires NoInts(Obj(schema)) || NoHugeFloats(v)
    ensures Conforms(rx, schema, v, true) <==> Conforms(rx, schema, v, false)
    decreases v
  {
    assert NoInts(Obj(schema)) ==> forall k | k in schema :: NoInts(schema[k]);
    match TypeOf(schema)
    case "object" =>
      if v.Obj? {
        forall k | k in v.fields
          ensures ConformsMember(rx, schema, k, v.fields[k], true) <==> ConformsMember(rx, schema, k, v.fields[k], false)
        {
          if "properties" in schema && schema["properties"].Obj? && k in schema["properties"].fields
             && schema["properties"].fields[k].Obj? {
            RoundingIsIdle(rx, schema["properties"].fields[k].fields, v.fields[k]);
          }
        }
      }
    case "array" =>
      if v.Arr? && "items" in schema && schema["items"].Obj? {
        forall i | 0 <= i < |v.items|
          ensures Conforms(rx, schema["items"].fields, v.items[i], true)
             <==> Conforms(rx, schema["items"].fields, v.items[i], false)
        {
          RoundingIsIdle(rx, schema["items"].fields, v.items[i]);
        }
      }
    case _ =>
  }

  /** The meaning is exact for a schema decoded from JSON, whatever the value, and for a value without huge
      floats, whatever the schema. */
  lemma ExactMeaning(rx: Regex, schema: JsonMap, v: Value)
    requires Accepted(Obj(schema)) && AllRepresentable(Obj(schema)) && AllRepresentable(v)
    requires NoInts(Obj(schema)) || NoHugeFloats(v)
    ensures Satisfies(rx, schema, v) <==> Conforms(rx, schema, v, false)
  {
    AcceptedMeaning(rx, schema, v);
    RoundingIsIdle(rx, schema, v);
  }
}
