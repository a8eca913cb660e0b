/** The JSON Schema subset the proxy checks tool arguments against (src/tools.rs). */
module Schema {
  import opened Wrappers
  import opened Json

  type SchemaObject = seq<Field>

  datatype SchemaError = MalformedSchema | Mismatch

  const Accepted: Result<(), SchemaError> := Success(())

  // -------- Shape of a schema --------

  predicate TypeName(kind: string) {
    kind in ["object", "array", "string", "integer", "number", "boolean", "null"]
  }

  function CheckTypeShape(kind: Json): Result<(), SchemaError> {
    match kind
    case JString(name) => if TypeName(name) then Accepted else Failure(MalformedSchema)
    case JArray(kinds) => if kinds == [] then Failure(MalformedSchema) else CheckTypeNames(kinds)
    case _ => Failure(MalformedSchema)
  }

  function CheckTypeNames(kinds: seq<Json>): Result<(), SchemaError> {
    if kinds == [] then Accepted
    else if !kinds[0].JString? || !TypeName(kinds[0].s) then Failure(MalformedSchema)
    else CheckTypeNames(kinds[1..])
  }

  function CheckRequiredShape(required: Json): Result<(), SchemaError> {
    if required.JArray? && forall i :: 0 <= i < |required.items| ==> required.items[i].JString? then Accepted
    else Failure(MalformedSchema)
  }

  /** `validate_schema_object_shape`. */
  function CheckShape(schema: SchemaObject): Result<(), SchemaError>
    decreases FieldsSize(schema), 1
  {
    var kind, required := Get(schema, "type"), Get(schema, "required");
    var properties, items := Get(schema, "properties"), Get(schema, "items");
    var additional, enumeration := Get(schema, "additionalProperties"), Get(schema, "enum");
    var _ :- if kind.Some? then CheckTypeShape(kind.value) else Accepted;
    var _ :- if required.Some? then CheckRequiredShape(required.value) else Accepted;
    var _ :- if properties.None? then Accepted
             else if properties.value.JObject? then CheckPropertiesShape(properties.value.fields)
             else Failure(MalformedSchema);
    var _ :- if items.None? then Accepted
             else if items.value.JObject? then CheckShape(items.value.fields)
             else Failure(MalformedSchema);
    var _ :- if additional.None? || additional.value.JBool? then Accepted
             else if additional.value.JObject? then CheckShape(additional.value.fields)
             else Failure(MalformedSchema);
    if enumeration.Some? && !enumeration.value.JArray? then Failure(MalformedSchema) else Accepted
  }

  function CheckPropertiesShape(properties: seq<Field>): Result<(), SchemaError>
    decreases FieldsSize(properties), 0
  {
    if properties == [] then Accepted
    else
      var property := properties[0].value;
      var _ :- if property.JObject? then CheckShape(property.fields) else Failure(MalformedSchema);
      CheckPropertiesShape(properties[1..])
  }

  // -------- A value against a schema --------

  predicate MatchesTypeName(value: Json, kind: string) {
    match kind
    case "object" => value.JObject?
    case "array" => value.JArray?
    case "string" => value.JString?
    case "integer" => value.JInt?
    case "number" => value.JInt? || value.JFloat?
    case "boolean" => value.JBool?
    case "null" => value.JNull?
    case _ => true
  }

  predicate MatchesType(value: Json, kind: Json) {
    match kind
    case JString(name) => MatchesTypeName(value, name)
    case JArray(kinds) => exists i :: 0 <= i < |kinds| && kinds[i].JString? && MatchesTypeName(value, kinds[i].s)
    case _ => true
  }

  predicate TypeIncludes(kind: Option<Json>, name: string) {
    match kind
    case Some(JString(s)) => s == name
    case Some(JArray(kinds)) => JString(name) in kinds
    case _ => false
  }

  predicate ImpliesObject(schema: SchemaObject) {
    TypeIncludes(Get(schema, "type"), "object") || Has(schema, "properties") || Has(schema, "required")
    || Has(schema, "additionalProperties")
  }

  predicate ImpliesArray(schema: SchemaObject) {
    TypeIncludes(Get(schema, "type"), "array") || Has(schema, "items")
  }

  function CheckRequired(entries: seq<Field>, required: seq<Json>): Result<(), SchemaError> {
    if required == [] then Accepted
    else if required[0].JString? && !Has(entries, required[0].s) then Failure(Mismatch)
    else CheckRequired(entries, required[1..])
  }

  /** `validate_value_against_schema`. */
  function CheckValue(value: Json, schema: SchemaObject): Result<(), SchemaError>
    decreases FieldsSize(schema), 0, 2
  {
    var enumeration, kind := AsArray(Get(schema, "enum")), Get(schema, "type");
    if enumeration.Some? && value !in enumeration.value then Failure(Mismatch)
    else if kind.Some? && !MatchesType(value, kind.value) then Failure(Mismatch)
    else
      var _ :- if ImpliesObject(schema) then CheckObject(value, schema) else Accepted;
      if ImpliesArray(schema) then CheckArray(value, schema) else Accepted
  }

  function CheckObject(value: Json, schema: SchemaObject): Result<(), SchemaError>
    decreases FieldsSize(schema), 0, 1
  {
    if !value.JObject? then Failure(Mismatch)
    else
      var entries := value.fields;
      var required, properties := AsArray(Get(schema, "required")), AsObject(Get(schema, "properties"));
      var _ :- if required.Some? then CheckRequired(entries, required.value) else Accepted;
      var _ :- if properties.Some? then CheckProperties(entries, properties.value) else Accepted;
      match Get(schema, "additionalProperties")
      case Some(JBool(false)) => CheckNoOthers(entries, properties)
      case Some(JObject(others)) => CheckOthers(entries, properties, others)
      case _ => Accepted
  }

  function CheckProperties(entries: seq<Field>, properties: seq<Field>): Result<(), SchemaError>
    decreases FieldsSize(properties), 0, 0
  {
    if properties == [] then Accepted
    else
      var Field(name, property) := properties[0];
      var _ :- if !Has(entries, name) then Accepted
               else if property.JObject? then CheckValue(Get(entries, name).value, property.fields)
               else Failure(MalformedSchema);
      CheckProperties(entries, properties[1..])
  }

  predicate Other(properties: Option<seq<Field>>, name: string) {
    properties.None? || !Has(properties.value, name)
  }

  function CheckNoOthers(entries: seq<Field>, properties: Option<seq<Field>>): Result<(), SchemaError> {
    if entries == [] then Accepted
    else if Other(properties, entries[0].name) then Failure(Mismatch)
    else CheckNoOthers(entries[1..], properties)
  }

  function CheckOthers(entries: seq<Field>, properties: Option<seq<Field>>, others: SchemaObject)
    : Result<(), SchemaError>
    decreases FieldsSize(others), 1, |entries|
  {
    if entries == [] then Accepted
    else
      var _ :- if Other(properties, entries[0].name) then CheckValue(entries[0].value, others) else Accepted;
      CheckOthers(entries[1..], properties, others)
  }

  function CheckArray(value: Json, schema: SchemaObject): Result<(), SchemaError>
    decreases FieldsSize(schema), 0, 1
  {
    if !value.JArray? then Failure(Mismatch)
    else match Get(schema, "items")
      case None => Accepted
      case Some(items) => CheckItems(value.items, items)
  }

  function CheckItems(elements: seq<Json>, items: Json): Result<(), SchemaError>
    decreases Size(items) - 1, 1, |elements|
  {
    if elements == [] then Accepted
    else if !items.JObject? then Failure(MalformedSchema)
    else
      var _ :- CheckValue(elements[0], items.fields);
      CheckItems(elements[1..], items)
  }
}
