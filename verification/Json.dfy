/** JSON values as serde_json holds them; an object lists its fields in the map's own key order. */
module Json {
  import opened Wrappers

  datatype Json =
    | JNull
    | JBool(b: bool)
    | JInt(n: int)
    | JFloat(x: real)
    | JString(s: string)
    | JArray(items: seq<Json>)
    | JObject(fields: seq<Field>)

  datatype Field = Field(name: string, value: Json)

  function Size(v: Json): (n: nat)
    ensures 1 <= n
    ensures v.JObject? ==> n == 1 + FieldsSize(v.fields)
    ensures v.JArray? ==> n == 1 + ItemsSize(v.items)
  {
    match v
    case JArray(items) => 1 + ItemsSize(items)
    case JObject(fields) => 1 + FieldsSize(fields)
    case _ => 1
  }

  function ItemsSize(items: seq<Json>): nat {
    if items == [] then 0 else Size(items[0]) + ItemsSize(items[1..])
  }

  function FieldsSize(fields: seq<Field>): nat {
    if fields == [] then 0 else Size(fields[0].value) + FieldsSize(fields[1..])
  }

  lemma FieldIsSmaller(fields: seq<Field>, i: nat)
    requires i < |fields|
    ensures Size(fields[i].value) <= FieldsSize(fields)
  {
    if i > 0 {
      FieldIsSmaller(fields[1..], i - 1);
    }
  }

  /** `Map::get`. */
  function Get(fields: seq<Field>, name: string): (r: Option<Json>)
    ensures r.Some? ==> Size(r.value) <= FieldsSize(fields)
    ensures r.Some? ==> exists i :: 0 <= i < |fields| && fields[i] == Field(name, r.value)
    ensures r.None? ==> forall i :: 0 <= i < |fields| ==> fields[i].name != name
  {
    if fields == [] then None
    else if fields[0].name == name then
      assert fields[0] == Field(name, fields[0].value);
      Some(fields[0].value)
    else
      var r := Get(fields[1..], name);
      assert r.Some? ==>
        exists i :: 0 <= i < |fields[1..]| && fields[1..][i] == Field(name, r.value) && fields[i + 1] == fields[1..][i];
      r
  }

  predicate Has(fields: seq<Field>, name: string) {
    Get(fields, name).Some?
  }

  function AsArray(v: Option<Json>): Option<seq<Json>> {
    if v.Some? && v.value.JArray? then Some(v.value.items) else None
  }

  function AsObject(v: Option<Json>): Option<seq<Field>> {
    if v.Some? && v.value.JObject? then Some(v.value.fields) else None
  }
}
