/** What the schema checker decides, against JSON Schema's own rules (src/tools.rs). */
module SchemaMeaning {
  import opened Wrappers
  import opened Json
  import opened Schema

  // -------- Rules that hold at every nested schema --------

  /** `rule` holds of the schema and of every schema nested in it. */
  ghost predicate EverySchema(rule: SchemaObject -> bool, schema: SchemaObject)
    decreases FieldsSize(schema)
  {
    && rule(schema)
    && (var properties := AsObject(Get(schema, "properties"));
        properties.Some? ==> forall i :: 0 <= i < |properties.value| ==>
          (FieldIsSmaller(properties.value, i);
           properties.value[i].value.JObject? ==> EverySchema(rule, properties.value[i].value.fields)))
    && (var items := AsObject(Get(schema, "items")); items.Some? ==> EverySchema(rule, items.value))
    && (var others := AsObject(Get(schema, "additionalProperties")); others.Some? ==> EverySchema(rule, others.value))
  }

  /** `rule` holds of the value and the schema, and of every nested value with the schemas that apply to it. */
  ghost predicate Throughout(rule: (Json, SchemaObject) -> bool, value: Json, schema: SchemaObject)
    decreases FieldsSize(schema)
  {
    && rule(value, schema)
    && (value.JObject? ==> ThroughoutObject(rule, value.fields, schema))
    && (value.JArray? ==>
          var items := AsObject(Get(schema, "items"));
          items.Some? ==> forall i :: 0 <= i < |value.items| ==> Throughout(rule, value.items[i], items.value))
  }

  ghost predicate ThroughoutObject(rule: (Json, SchemaObject) -> bool, entries: seq<Field>, schema: SchemaObject)
    decreases FieldsSize(schema), 0
  {
    var properties, others := AsObject(Get(schema, "properties")), AsObject(Get(schema, "additionalProperties"));
    && (properties.Some? ==> ThroughoutProperties(rule, entries, properties.value))
    && (others.Some? ==> forall j :: 0 <= j < |entries| && Other(properties, entries[j].name) ==>
          Throughout(rule, entries[j].value, others.value))
  }

  ghost predicate ThroughoutProperties(rule: (Json, SchemaObject) -> bool, entries: seq<Field>, properties: seq<Field>)
    decreases FieldsSize(properties), 1
  {
    forall i :: 0 <= i < |properties| ==>
      (FieldIsSmaller(properties, i);
       properties[i].value.JObject? && Has(entries, properties[i].name) ==>
         Throughout(rule, Get(entries, properties[i].name).value, properties[i].value.fields))
  }

  lemma {:induction false} ThroughoutImplies(p: (Json, SchemaObject) -> bool, q: (Json, SchemaObject) -> bool,
      r: (Json, SchemaObject) -> bool, value: Json, schema: SchemaObject)
    requires Throughout(p, value, schema) && Throughout(q, value, schema)
    requires forall v, s :: p(v, s) && q(v, s) ==> r(v, s)
    ensures Throughout(r, value, schema)
    decreases FieldsSize(schema), 1
  {
    if value.JObject? {
      ObjectImplies(p, q, r, value.fields, schema);
    }
    var items := AsObject(Get(schema, "items"));
    if value.JArray? && items.Some? {
      forall i | 0 <= i < |value.items| ensures Throughout(r, value.items[i], items.value) {
        ThroughoutImplies(p, q, r, value.items[i], items.value);
      }
    }
  }

  lemma {:induction false} ObjectImplies(p: (Json, SchemaObject) -> bool, q: (Json, SchemaObject) -> bool,
      r: (Json, SchemaObject) -> bool, entries: seq<Field>, schema: SchemaObject)
    requires ThroughoutObject(p, entries, schema) && ThroughoutObject(q, entries, schema)
    requires forall v, s :: p(v, s) && q(v, s) ==> r(v, s)
    ensures ThroughoutObject(r, entries, schema)
    decreases FieldsSize(schema), 0
  {
    var properties, others := AsObject(Get(schema, "properties")), AsObject(Get(schema, "additionalProperties"));
    if properties.Some? {
      forall i | 0 <= i < |properties.value| && properties.value[i].value.JObject?
        && Has(entries, properties.value[i].name)
        ensures Throughout(r, Get(entries, properties.value[i].name).value, properties.value[i].value.fields)
      {
        FieldIsSmaller(properties.value, i);
        ThroughoutImplies(p, q, r, Get(entries, properties.value[i].name).value, properties.value[i].value.fields);
      }
    }
    if others.Some? {
      forall j | 0 <= j < |entries| && Other(properties, entries[j].name)
        ensures Throughout(r, entries[j].value, others.value)
      {
        ThroughoutImplies(p, q, r, entries[j].value, others.value);
      }
    }
  }

  /** A rule about schemas alone holds wherever a value meets one of them. */
  lemma {:induction false} SchemaRuleThroughout(rule: SchemaObject -> bool, p: (Json, SchemaObject) -> bool,
      value: Json, schema: SchemaObject)
    requires EverySchema(rule, schema)
    requires forall v, s :: rule(s) ==> p(v, s)
    ensures Throughout(p, value, schema)
    decreases FieldsSize(schema)
  {
    var properties, others := AsObject(Get(schema, "properties")), AsObject(Get(schema, "additionalProperties"));
    var items := AsObject(Get(schema, "items"));
    if value.JObject? {
      if properties.Some? {
        forall i | 0 <= i < |properties.value| && properties.value[i].value.JObject?
          && Has(value.fields, properties.value[i].name)
          ensures Throughout(p, Get(value.fields, properties.value[i].name).value, properties.value[i].value.fields)
        {
          FieldIsSmaller(properties.value, i);
          SchemaRuleThroughout(rule, p, Get(value.fields, properties.value[i].name).value,
            properties.value[i].value.fields);
        }
      }
      if others.Some? {
        forall j | 0 <= j < |value.fields| && Other(properties, value.fields[j].name)
          ensures Throughout(p, value.fields[j].value, others.value)
        {
          SchemaRuleThroughout(rule, p, value.fields[j].value, others.value);
        }
      }
    }
    if value.JArray? && items.Some? {
      forall i | 0 <= i < |value.items| ensures Throughout(p, value.items[i], items.value) {
        SchemaRuleThroughout(rule, p, value.items[i], items.value);
      }
    }
  }

  // -------- What the shape check decides --------

  predicate WellShapedType(kind: Json) {
    match kind
    case JString(name) => TypeName(name)
    case JArray(kinds) => kinds != [] && forall i :: 0 <= i < |kinds| ==> kinds[i].JString? && TypeName(kinds[i].s)
    case _ => false
  }

  predicate AllStrings(items: seq<Json>) {
    forall i :: 0 <= i < |items| ==> items[i].JString?
  }

  predicate AllObjects(fields: seq<Field>) {
    forall i :: 0 <= i < |fields| ==> fields[i].value.JObject?
  }

  /** One schema object uses its keywords with values of the right shape. */
  predicate WellShaped(schema: SchemaObject) {
    var kind, required := Get(schema, "type"), Get(schema, "required");
    var properties, items := Get(schema, "properties"), Get(schema, "items");
    var additional, enumeration := Get(schema, "additionalProperties"), Get(schema, "enum");
    && (kind.Some? ==> WellShapedType(kind.value))
    && (required.Some? ==> required.value.JArray? && AllStrings(required.value.items))
    && (properties.Some? ==> properties.value.JObject? && AllObjects(properties.value.fields))
    && (items.Some? ==> items.value.JObject?)
    && (additional.Some? ==> additional.value.JBool? || additional.value.JObject?)
    && (enumeration.Some? ==> enumeration.value.JArray?)
  }

  lemma {:induction false} TypeNamesMeaning(kinds: seq<Json>)
    ensures CheckTypeNames(kinds).Success? <==>
            forall i :: 0 <= i < |kinds| ==> kinds[i].JString? && TypeName(kinds[i].s)
  {
    if kinds != [] && kinds[0].JString? && TypeName(kinds[0].s) {
      TypeNamesMeaning(kinds[1..]);
      assert forall i :: 1 <= i < |kinds| ==> kinds[i] == kinds[1..][i - 1];
    }
  }

  lemma TypeShapeMeaning(kind: Json)
    ensures CheckTypeShape(kind).Success? <==> WellShapedType(kind)
  {
    hide TypeName, CheckTypeNames;
    if kind.JArray? {
      TypeNamesMeaning(kind.items);
    }
  }

  lemma RequiredShapeMeaning(required: Json)
    ensures CheckRequiredShape(required).Success? <==> required.JArray? && AllStrings(required.items)
  {
  }

  /** The shape check accepts exactly the schemas that are well shaped throughout. */
  lemma {:induction false} ShapeMeaning(schema: SchemaObject)
    ensures CheckShape(schema).Success? <==> EverySchema(WellShaped, schema)
    decreases FieldsSize(schema), 1
  {
    hide CheckTypeShape, CheckRequiredShape, CheckPropertiesShape, CheckShape, Get, WellShapedType, AllStrings;
    ShapeParts(schema);
    var kind, required := Get(schema, "type"), Get(schema, "required");
    var properties, items := AsObject(Get(schema, "properties")), AsObject(Get(schema, "items"));
    var others := AsObject(Get(schema, "additionalProperties"));
    if kind.Some? {
      TypeShapeMeaning(kind.value);
    }
    if required.Some? {
      RequiredShapeMeaning(required.value);
    }
    if properties.Some? {
      PropertiesShapeMeaning(properties.value);
    }
    if items.Some? {
      ShapeMeaning(items.value);
    }
    if others.Some? {
      ShapeMeaning(others.value);
    }
  }

  /** The shape check asks for all its parts. */
  lemma ShapeParts(schema: SchemaObject)
    ensures var kind, required := Get(schema, "type"), Get(schema, "required");
            var properties, items := Get(schema, "properties"), Get(schema, "items");
            var additional, enumeration := Get(schema, "additionalProperties"), Get(schema, "enum");
            CheckShape(schema).Success? <==>
            && (kind.Some? ==> CheckTypeShape(kind.value).Success?)
            && (required.Some? ==> CheckRequiredShape(required.value).Success?)
            && (properties.Some? ==>
                properties.value.JObject? && CheckPropertiesShape(properties.value.fields).Success?)
            && (items.Some? ==> items.value.JObject? && CheckShape(items.value.fields).Success?)
            && (additional.Some? ==>
                  additional.value.JBool?
                    || (additional.value.JObject? && CheckShape(additional.value.fields).Success?))
            && (enumeration.Some? ==> enumeration.value.JArray?)
  {
    hide CheckTypeShape, CheckRequiredShape, CheckPropertiesShape, Get;
  }

  lemma {:induction false} PropertiesShapeMeaning(properties: seq<Field>)
    ensures CheckPropertiesShape(properties).Success? <==>
            forall i :: 0 <= i < |properties| ==>
              properties[i].value.JObject? && EverySchema(WellShaped, properties[i].value.fields)
    decreases FieldsSize(properties), 0
  {
    hide WellShaped, EverySchema, CheckShape;
    if properties != [] {
      if properties[0].value.JObject? {
        ShapeMeaning(properties[0].value.fields);
      }
      PropertiesShapeMeaning(properties[1..]);
      assert forall i :: 1 <= i < |properties| ==> properties[i] == properties[1..][i - 1];
    }
  }

  // -------- What the value check decides --------

  predicate RequiredPresent(entries: seq<Field>, schema: SchemaObject) {
    var required := AsArray(Get(schema, "required"));
    required.Some? ==> forall i :: 0 <= i < |required.value| ==> required.value[i].JString? ==>
      Has(entries, required.value[i].s)
  }

  predicate NoOthers(entries: seq<Field>, schema: SchemaObject) {
    var properties := AsObject(Get(schema, "properties"));
    Get(schema, "additionalProperties") == Some(JBool(false)) ==>
      forall j :: 0 <= j < |entries| ==> !Other(properties, entries[j].name)
  }

  /** A value of the kind its schema's keywords are about. */
  predicate KindsFit(value: Json, schema: SchemaObject) {
    (ImpliesObject(schema) ==> value.JObject?) && (ImpliesArray(schema) ==> value.JArray?)
  }

  ghost predicate Keyed(fields: seq<Field>, names: set<string>) {
    exists i :: 0 <= i < |fields| && fields[i].name in names
  }

  /** Which schemas are about objects or arrays, and which properties are not the schema's own. */
  lemma KeywordsMean(schema: SchemaObject, properties: seq<Field>, name: string)
    ensures forall kind: string :: TypeIncludes(Get(schema, "type"), kind) <==>
              || Get(schema, "type") == Some(JString(kind))
              || (AsArray(Get(schema, "type")).Some? && JString(kind) in AsArray(Get(schema, "type")).value)
    ensures ImpliesObject(schema) <==>
            || TypeIncludes(Get(schema, "type"), "object")
            || Keyed(schema, {"properties", "required", "additionalProperties"})
    ensures ImpliesArray(schema) <==> TypeIncludes(Get(schema, "type"), "array") || Keyed(schema, {"items"})
    ensures Other(Some(properties), name) <==> !Keyed(properties, {name})
    ensures Other(None, name)
  {
    hide TypeIncludes;
    KeyIsHeld(schema, "properties");
    KeyIsHeld(schema, "required");
    KeyIsHeld(schema, "additionalProperties");
    KeyIsHeld(schema, "items");
    KeyIsHeld(properties, name);
    TypesAreIncluded(Get(schema, "type"));
  }

  lemma KeyIsHeld(fields: seq<Field>, name: string)
    ensures Has(fields, name) <==> exists i :: 0 <= i < |fields| && fields[i].name == name
  {
  }

  lemma TypesAreIncluded(kind: Option<Json>)
    ensures forall name: string :: TypeIncludes(kind, name) <==>
              kind == Some(JString(name)) || (AsArray(kind).Some? && JString(name) in AsArray(kind).value)
  {
  }

  /** What acceptance asks of one value and one schema, nested ones aside. */
  predicate AcceptsHere(value: Json, schema: SchemaObject) {
    var enumeration, kind := AsArray(Get(schema, "enum")), Get(schema, "type");
    && (enumeration.Some? ==> value in enumeration.value)
    && (kind.Some? ==> MatchesType(value, kind.value))
    && KindsFit(value, schema)
    && (value.JObject? ==> RequiredPresent(value.fields, schema) && NoOthers(value.fields, schema))
  }

  function Verdict(accepted: bool): Result<(), SchemaError> {
    if accepted then Accepted else Failure(Mismatch)
  }

  lemma {:induction false} RequiredMeaning(entries: seq<Field>, required: seq<Json>)
    ensures CheckRequired(entries, required) ==
            Verdict(forall i :: 0 <= i < |required| ==> required[i].JString? ==> Has(entries, required[i].s))
  {
    if required != [] {
      RequiredMeaning(entries, required[1..]);
      assert forall i :: 1 <= i < |required| ==> required[i] == required[1..][i - 1];
    }
  }

  lemma {:induction false} NoOthersMeaning(entries: seq<Field>, properties: Option<seq<Field>>)
    ensures CheckNoOthers(entries, properties) ==
            Verdict(forall j :: 0 <= j < |entries| ==> !Other(properties, entries[j].name))
  {
    hide Other;
    if entries != [] {
      NoOthersMeaning(entries[1..], properties);
      assert forall i :: 1 <= i < |entries| ==> entries[i] == entries[1..][i - 1];
    }
  }

  /**
   For a schema that passed the shape check, the value check never reports a
   malformed schema, and accepts exactly the values that are acceptable throughout.
   */
  lemma {:induction false} CheckMeaning(value: Json, schema: SchemaObject)
    requires EverySchema(WellShaped, schema)
    ensures CheckValue(value, schema) == Verdict(Throughout(AcceptsHere, value, schema))
    decreases FieldsSize(schema), 0, 2
  {
    ObjectAndArrayMeaning(value, schema);
    hide EverySchema, CheckObject, CheckArray, MatchesType, ImpliesObject, ImpliesArray, ThroughoutObject;
    var kind := Get(schema, "type");
  }

  ghost predicate ItemsAccepted(value: Json, schema: SchemaObject) {
    value.JArray? ==>
      var items := AsObject(Get(schema, "items"));
      items.Some? ==> forall i :: 0 <= i < |value.items| ==> Throughout(AcceptsHere, value.items[i], items.value)
  }

  lemma {:induction false} ObjectAndArrayMeaning(value: Json, schema: SchemaObject)
    requires EverySchema(WellShaped, schema)
    ensures ImpliesObject(schema) ==>
              (CheckObject(value, schema) ==
               Verdict(value.JObject? && RequiredPresent(value.fields, schema) && NoOthers(value.fields, schema)
                       && ThroughoutObject(AcceptsHere, value.fields, schema)))
    ensures ImpliesArray(schema) ==> CheckArray(value, schema) == Verdict(value.JArray? && ItemsAccepted(value, schema))
    ensures !ImpliesObject(schema) && value.JObject? ==>
              (RequiredPresent(value.fields, schema) && NoOthers(value.fields, schema)
               && ThroughoutObject(AcceptsHere, value.fields, schema))
    ensures !ImpliesArray(schema) ==> ItemsAccepted(value, schema)
    decreases FieldsSize(schema), 0, 1
  {
    if value.JObject? {
      ObjectMeaning(value.fields, schema);
    }
    var items := Get(schema, "items");
    if value.JArray? && items.Some? {
      ItemsMeaning(value.items, items.value);
    }
    hide Throughout, AcceptsHere, EverySchema, CheckItems;
  }

  lemma {:induction false} ObjectMeaning(entries: seq<Field>, schema: SchemaObject)
    requires EverySchema(WellShaped, schema)
    ensures CheckObject(JObject(entries), schema) ==
            Verdict(RequiredPresent(entries, schema) && NoOthers(entries, schema)
                    && ThroughoutObject(AcceptsHere, entries, schema))
    decreases FieldsSize(schema), 0, 0
  {
    hide Throughout, AcceptsHere, Get, EverySchema, CheckRequired, CheckProperties, CheckOthers, CheckNoOthers,
      ThroughoutProperties, WellShaped, Has, Other;
    ShapedParts(schema);
    var required, properties := AsArray(Get(schema, "required")), AsObject(Get(schema, "properties"));
    if required.Some? {
      RequiredMeaning(entries, required.value);
    }
    if properties.Some? {
      PropertiesMeaning(entries, properties.value);
    }
    NoOthersMeaning(entries, properties);
    var others := AsObject(Get(schema, "additionalProperties"));
    if others.Some? {
      OthersMeaning(entries, properties, others.value);
    }
  }

  /** The nested schemas of a well-shaped schema are objects and well shaped themselves. */
  lemma ShapedParts(schema: SchemaObject)
    requires EverySchema(WellShaped, schema)
    ensures var properties := AsObject(Get(schema, "properties"));
            && (Has(schema, "properties") ==> properties.Some?)
            && (properties.Some? ==> forall i :: 0 <= i < |properties.value| ==>
                  properties.value[i].value.JObject? && EverySchema(WellShaped, properties.value[i].value.fields))
    ensures Has(schema, "required") ==> AsArray(Get(schema, "required")).Some?
    ensures var others := AsObject(Get(schema, "additionalProperties"));
            others.Some? ==> EverySchema(WellShaped, others.value)
  {
    hide Get;
  }

  lemma {:induction false} PropertiesMeaning(entries: seq<Field>, properties: seq<Field>)
    requires forall i :: 0 <= i < |properties| ==>
               properties[i].value.JObject? && EverySchema(WellShaped, properties[i].value.fields)
    ensures CheckProperties(entries, properties) == Verdict(ThroughoutProperties(AcceptsHere, entries, properties))
    decreases FieldsSize(properties), 0, 0
  {
    hide Throughout, AcceptsHere, EverySchema, CheckValue, Get;
    if properties != [] {
      var Field(name, property) := properties[0];
      if Has(entries, name) {
        CheckMeaning(Get(entries, name).value, property.fields);
      }
      PropertiesMeaning(entries, properties[1..]);
      assert forall i :: 1 <= i < |properties| ==> properties[i] == properties[1..][i - 1];
    }
  }

  lemma {:induction false} OthersMeaning(entries: seq<Field>, properties: Option<seq<Field>>, others: SchemaObject)
    requires EverySchema(WellShaped, others)
    ensures CheckOthers(entries, properties, others) ==
            Verdict(forall j :: 0 <= j < |entries| && Other(properties, entries[j].name) ==>
                      Throughout(AcceptsHere, entries[j].value, others))
    decreases FieldsSize(others), 1, |entries|
  {
    hide Throughout, AcceptsHere, EverySchema, CheckValue, Other;
    if entries != [] {
      if Other(properties, entries[0].name) {
        CheckMeaning(entries[0].value, others);
      }
      OthersMeaning(entries[1..], properties, others);
      assert forall i :: 1 <= i < |entries| ==> entries[i] == entries[1..][i - 1];
    }
  }

  lemma {:induction false} ItemsMeaning(elements: seq<Json>, items: Json)
    requires items.JObject? && EverySchema(WellShaped, items.fields)
    ensures CheckItems(elements, items) ==
            Verdict(forall i :: 0 <= i < |elements| ==> Throughout(AcceptsHere, elements[i], items.fields))
    decreases Size(items) - 1, 1, |elements|
  {
    hide Throughout, AcceptsHere, EverySchema, CheckValue;
    if elements != [] {
      CheckMeaning(elements[0], items.fields);
      ItemsMeaning(elements[1..], items);
      assert forall i :: 1 <= i < |elements| ==> elements[i] == elements[1..][i - 1];
    }
  }

  // -------- JSON Schema's own rules --------

  /** Instance equality: numbers by value, everything else by structure. */
  predicate SameJson(a: Json, b: Json) {
    match (a, b)
    case (JInt(m), JFloat(y)) => m as real == y
    case (JFloat(x), JInt(n)) => x == n as real
    case (JArray(xs), JArray(ys)) => |xs| == |ys| && forall i :: 0 <= i < |xs| ==> SameJson(xs[i], ys[i])
    case (JObject(xs), JObject(ys)) =>
      |xs| == |ys| && forall i :: 0 <= i < |xs| ==> xs[i].name == ys[i].name && SameJson(xs[i].value, ys[i].value)
    case _ => a == b
  }

  predicate Integral(x: real) {
    x.Floor as real == x
  }

  /** A number with no fractional part is an integer, however it is written. */
  predicate IsOfType(value: Json, kind: string) {
    match kind
    case "object" => value.JObject?
    case "array" => value.JArray?
    case "string" => value.JString?
    case "integer" => value.JInt? || (value.JFloat? && Integral(value.x))
    case "number" => value.JInt? || value.JFloat?
    case "boolean" => value.JBool?
    case "null" => value.JNull?
    case _ => false
  }

  predicate TypeAllows(value: Json, kind: Json) {
    match kind
    case JString(name) => IsOfType(value, name)
    case JArray(kinds) => exists i :: 0 <= i < |kinds| && kinds[i].JString? && IsOfType(value, kinds[i].s)
    case _ => true
  }

  predicate EnumAllows(value: Json, enumeration: seq<Json>) {
    exists i :: 0 <= i < |enumeration| && SameJson(enumeration[i], value)
  }

  /** Validity of one value against one schema; object keywords only constrain objects, `items` only arrays. */
  predicate ValidHere(value: Json, schema: SchemaObject) {
    var enumeration, kind := AsArray(Get(schema, "enum")), Get(schema, "type");
    && (enumeration.Some? ==> EnumAllows(value, enumeration.value))
    && (kind.Some? ==> TypeAllows(value, kind.value))
    && (value.JObject? ==> RequiredPresent(value.fields, schema) && NoOthers(value.fields, schema))
  }

  ghost predicate Valid(value: Json, schema: SchemaObject) {
    Throughout(ValidHere, value, schema)
  }

  predicate ShapedHere(value: Json, schema: SchemaObject) {
    WellShaped(schema)
  }

  lemma {:induction false} SameJsonReflexive(v: Json)
    ensures SameJson(v, v)
  {
    match v {
      case JArray(items) =>
        forall i | 0 <= i < |items| ensures SameJson(items[i], items[i]) {
          SameJsonReflexive(items[i]);
        }
      case JObject(fields) =>
        forall i | 0 <= i < |fields| ensures SameJson(fields[i].value, fields[i].value) {
          SameJsonReflexive(fields[i].value);
        }
      case _ =>
    }
  }

  lemma AcceptsHereIsValid(value: Json, schema: SchemaObject)
    requires AcceptsHere(value, schema) && WellShaped(schema)
    ensures ValidHere(value, schema)
  {
    SameJsonReflexive(value);
    hide RequiredPresent, NoOthers, KindsFit, SameJson, Get;
    var enumeration := AsArray(Get(schema, "enum"));
    if enumeration.Some? {
      var i :| 0 <= i < |enumeration.value| && enumeration.value[i] == value;
      assert SameJson(enumeration.value[i], value);
    }
  }

  /** Whatever the checker accepts is valid JSON for the schema. */
  lemma AcceptedIsValid(value: Json, schema: SchemaObject)
    requires CheckShape(schema).Success? && CheckValue(value, schema).Success?
    ensures Valid(value, schema)
  {
    hide AcceptsHere, WellShaped, ValidHere, CheckShape, CheckValue, Throughout, EverySchema;
    ShapeMeaning(schema);
    CheckMeaning(value, schema);
    SchemaRuleThroughout(WellShaped, ShapedHere, value, schema);
    forall v, s | AcceptsHere(v, s) && ShapedHere(v, s) ensures ValidHere(v, s) {
      AcceptsHereIsValid(v, s);
    }
    ThroughoutImplies(AcceptsHere, ShapedHere, ValidHere, value, schema);
  }

  // -------- When the checker is exact --------

  /**
   Floats meet the schema the way the checker reads it: a value an `enum` lists is listed in
   the same spelling, and a float with no fractional part is not asked to be an integer only.
   */
  predicate FloatsFit(value: Json, schema: SchemaObject) {
    var enumeration, kind := AsArray(Get(schema, "enum")), Get(schema, "type");
    && (enumeration.Some? && EnumAllows(value, enumeration.value) ==> value in enumeration.value)
    && (value.JFloat? && Integral(value.x) && TypeIncludes(kind, "integer") ==> TypeIncludes(kind, "number"))
  }

  /** The checker's reading of a type is JSON Schema's, but for integral floats. */
  lemma TypeMeaning(value: Json, kind: Json)
    requires WellShapedType(kind)
    ensures MatchesType(value, kind) <==>
            && TypeAllows(value, kind)
            && (value.JFloat? && Integral(value.x) && TypeIncludes(Some(kind), "integer") ==>
                TypeIncludes(Some(kind), "number"))
  {
    if kind.JArray? {
      var kinds := kind.items;
      if value.JFloat? {
        assert MatchesType(value, kind) <==> JString("number") in kinds;
        assert TypeAllows(value, kind) <==>
          JString("number") in kinds || (Integral(value.x) && JString("integer") in kinds);
      } else {
        forall i | 0 <= i < |kinds|
          ensures kinds[i].JString? && (MatchesTypeName(value, kinds[i].s) <==> IsOfType(value, kinds[i].s)) {
        }
      }
    }
  }

  /** One value and one schema: acceptance is validity, the implied kinds, and floats that fit. */
  lemma AcceptsHereExactly(value: Json, schema: SchemaObject)
    requires WellShaped(schema)
    ensures AcceptsHere(value, schema) <==>
            ValidHere(value, schema) && KindsFit(value, schema) && FloatsFit(value, schema)
  {
    if AcceptsHere(value, schema) {
      AcceptsHereIsValid(value, schema);
    }
    var kind := Get(schema, "type");
    if kind.Some? {
      TypeMeaning(value, kind.value);
    }
    hide RequiredPresent, NoOthers, KindsFit, SameJson, Get, MatchesType, TypeAllows, TypeIncludes, EnumAllows;
  }

  predicate BothFit(value: Json, schema: SchemaObject) {
    KindsFit(value, schema) && FloatsFit(value, schema)
  }

  /**
   For every value and every schema of the right shape, the checker accepts exactly the valid
   values that are of the kind each nested schema's keywords imply and whose floats fit.
   */
  lemma CheckIsExact(value: Json, schema: SchemaObject)
    requires CheckShape(schema).Success?
    ensures CheckValue(value, schema).Success? <==> Valid(value, schema) && Throughout(BothFit, value, schema)
  {
    hide AcceptsHere, WellShaped, ValidHere, KindsFit, FloatsFit, CheckShape, CheckValue, Throughout, EverySchema;
    ShapeMeaning(schema);
    CheckMeaning(value, schema);
    SchemaRuleThroughout(WellShaped, ShapedHere, value, schema);
    forall v, s | ShapedHere(v, s) ensures AcceptsHere(v, s) <==> ValidHere(v, s) && BothFit(v, s) {
      AcceptsHereExactly(v, s);
    }
    if Throughout(AcceptsHere, value, schema) {
      ThroughoutImplies(AcceptsHere, ShapedHere, ValidHere, value, schema);
      ThroughoutImplies(AcceptsHere, ShapedHere, BothFit, value, schema);
    }
    if Valid(value, schema) && Throughout(BothFit, value, schema) {
      ThroughoutImplies(ValidHere, ShapedHere, ValidShaped, value, schema);
      ThroughoutImplies(ValidShaped, BothFit, AcceptsHere, value, schema);
    }
  }

  predicate ValidShaped(value: Json, schema: SchemaObject) {
    ShapedHere(value, schema) && ValidHere(value, schema)
  }

  // -------- Without floats --------

  predicate FloatFree(v: Json) {
    match v
    case JFloat(_) => false
    case JArray(items) => forall i :: 0 <= i < |items| ==> FloatFree(items[i])
    case JObject(fields) => forall i :: 0 <= i < |fields| ==> FloatFree(fields[i].value)
    case _ => true
  }

  lemma {:induction false} FloatFreeSameIsEqual(a: Json, b: Json)
    requires FloatFree(a) && FloatFree(b)
    ensures SameJson(a, b) <==> a == b
  {
    if a == b {
      SameJsonReflexive(a);
    }
    match (a, b) {
      case (JArray(xs), JArray(ys)) =>
        if SameJson(a, b) {
          forall i | 0 <= i < |xs| ensures xs[i] == ys[i] {
            FloatFreeSameIsEqual(xs[i], ys[i]);
          }
        }
      case (JObject(xs), JObject(ys)) =>
        if SameJson(a, b) {
          forall i | 0 <= i < |xs| ensures xs[i] == ys[i] {
            FloatFreeSameIsEqual(xs[i].value, ys[i].value);
          }
        }
      case _ =>
    }
  }

  predicate FloatFreeHere(value: Json, schema: SchemaObject) {
    && FloatFree(value)
    && (var enumeration := AsArray(Get(schema, "enum"));
        enumeration.Some? ==> forall i :: 0 <= i < |enumeration.value| ==> FloatFree(enumeration.value[i]))
  }

  lemma {:induction false} FloatFreeThroughout(value: Json, schema: SchemaObject)
    requires FloatFree(value) && FloatFree(JObject(schema))
    ensures Throughout(FloatFreeHere, value, schema)
    decreases FieldsSize(schema)
  {
    var properties, others := AsObject(Get(schema, "properties")), AsObject(Get(schema, "additionalProperties"));
    var items, enumeration := AsObject(Get(schema, "items")), AsArray(Get(schema, "enum"));
    FloatFreeGet(schema, "enum");
    FloatFreeGet(schema, "properties");
    FloatFreeGet(schema, "additionalProperties");
    FloatFreeGet(schema, "items");
    if value.JObject? {
      if properties.Some? {
        forall i | 0 <= i < |properties.value| && properties.value[i].value.JObject?
          && Has(value.fields, properties.value[i].name)
          ensures Throughout(FloatFreeHere, Get(value.fields, properties.value[i].name).value,
                  properties.value[i].value.fields)
        {
          FieldIsSmaller(properties.value, i);
          FloatFreeGet(value.fields, properties.value[i].name);
          FloatFreeThroughout(Get(value.fields, properties.value[i].name).value, properties.value[i].value.fields);
        }
      }
      if others.Some? {
        forall j | 0 <= j < |value.fields| && Other(properties, value.fields[j].name)
          ensures Throughout(FloatFreeHere, value.fields[j].value, others.value)
        {
          FloatFreeThroughout(value.fields[j].value, others.value);
        }
      }
    }
    if value.JArray? && items.Some? {
      forall i | 0 <= i < |value.items| ensures Throughout(FloatFreeHere, value.items[i], items.value) {
        FloatFreeThroughout(value.items[i], items.value);
      }
    }
  }

  lemma FloatFreeGet(fields: seq<Field>, name: string)
    requires FloatFree(JObject(fields))
    ensures Has(fields, name) ==> FloatFree(Get(fields, name).value)
  {
    if Has(fields, name) {
      var i :| 0 <= i < |fields| && fields[i] == Field(name, Get(fields, name).value);
    }
  }

  lemma FloatFreeFits(value: Json, schema: SchemaObject)
    requires FloatFreeHere(value, schema)
    ensures FloatsFit(value, schema)
  {
    hide Get, SameJson;
    var enumeration := AsArray(Get(schema, "enum"));
    if enumeration.Some? && EnumAllows(value, enumeration.value) {
      var i :| 0 <= i < |enumeration.value| && SameJson(enumeration.value[i], value);
      FloatFreeSameIsEqual(enumeration.value[i], value);
    }
  }

  /** Without floats, acceptance is validity plus values of the kinds the keywords imply. */
  lemma CheckIsExactWithoutFloats(value: Json, schema: SchemaObject)
    requires CheckShape(schema).Success? && FloatFree(value) && FloatFree(JObject(schema))
    ensures CheckValue(value, schema).Success? <==> Valid(value, schema) && Throughout(KindsFit, value, schema)
  {
    hide ValidHere, FloatFreeHere, FloatsFit, KindsFit, CheckShape, CheckValue, Throughout, FloatFree;
    CheckIsExact(value, schema);
    FloatFreeThroughout(value, schema);
    forall v, s | FloatFreeHere(v, s) ensures FloatsFit(v, s) {
      FloatFreeFits(v, s);
    }
    if Throughout(KindsFit, value, schema) {
      ThroughoutImplies(KindsFit, FloatFreeHere, BothFit, value, schema);
    }
    if Throughout(BothFit, value, schema) {
      ThroughoutImplies(BothFit, BothFit, KindsFit, value, schema);
    }
  }

  /** Every type is a single name, and object and array keywords only go with their own type. */
  predicate Tidy(schema: SchemaObject) {
    var kind := Get(schema, "type");
    && (kind.Some? ==> kind.value.JString?)
    && (Has(schema, "properties") || Has(schema, "required") || Has(schema, "additionalProperties") ==>
          kind == Some(JString("object")))
    && (Has(schema, "items") ==> kind == Some(JString("array")))
  }

  predicate TidyHere(value: Json, schema: SchemaObject) {
    Tidy(schema)
  }

  /** For tidy schemas without floats the checker decides validity exactly. */
  lemma TidyCheckDecidesValidity(value: Json, schema: SchemaObject)
    requires CheckShape(schema).Success? && FloatFree(value) && FloatFree(JObject(schema))
    requires EverySchema(Tidy, schema)
    ensures CheckValue(value, schema).Success? <==> Valid(value, schema)
  {
    hide AcceptsHere, CheckShape, CheckValue, Throughout, EverySchema, FloatFree, Get, RequiredPresent, NoOthers,
      SameJson;
    CheckIsExactWithoutFloats(value, schema);
    if Valid(value, schema) {
      SchemaRuleThroughout(Tidy, TidyHere, value, schema);
      ThroughoutImplies(ValidHere, TidyHere, KindsFit, value, schema);
    }
  }

  lemma TypeOnly(kind: Json)
    ensures var schema := [Field("type", kind)];
            Get(schema, "type") == Some(kind) && forall name :: name != "type" ==> Get(schema, name) == None
  {
  }

  /** A nullable object: valid as null, yet refused. */
  lemma NullableObjectIsRefused()
    ensures var schema := [Field("type", JArray([JString("object"), JString("null")]))];
            CheckShape(schema).Success? && Valid(JNull, schema) && CheckValue(JNull, schema) == Failure(Mismatch)
  {
    hide Get, CheckTypeNames;
    var kinds := [JString("object"), JString("null")];
    TypeOnly(JArray(kinds));
    TypeNamesMeaning(kinds);
    assert JString("object") in kinds;
    assert IsOfType(JNull, kinds[1].s) && MatchesTypeName(JNull, kinds[1].s);
  }

  /** An integer written as 1.0: valid, yet refused. */
  lemma IntegralFloatIsRefused()
    ensures var schema := [Field("type", JString("integer"))];
            CheckShape(schema).Success? && Valid(JFloat(1.0), schema) &&
            CheckValue(JFloat(1.0), schema) == Failure(Mismatch)
  {
    hide Get;
    TypeOnly(JString("integer"));
  }
}
