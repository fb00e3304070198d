/**
 * The two response-shape schemas of the test suite and the checks that
 * apply them. A schema is itself a JSON value, built exactly as the Python
 * dict literals are (a repeated key keeps its later entry), and `Validates`
 * gives the pass/fail meaning of the JSON Schema Draft 2020-12 keywords
 * those literals use. Every other keyword is ignored; the two literals use
 * none except the unknown `additionalOperations`.
 */
module JsonValid {
  import opened Json

  /** The `type` keyword: does instance v have JSON type t? */
  predicate HasType(v: Value, t: string) {
    match t
    case "object" => v.JObj?
    case "string" => v.JStr?
    case "array" => v.JArr?
    case "boolean" => v.JBool?
    case "null" => v.JNull?
    case "number" => v.JNum?
    case "integer" => v.JNum?
    case _ => false
  }

  /** The property names a schema object lists under `properties`. */
  function DeclaredProperties(kw: map<string, Value>): set<string> {
    if "properties" in kw && kw["properties"].JObj? then kw["properties"].fields.Keys else {}
  }

  /**
   * Does `inst` pass `schema`? A boolean schema accepts everything (true) or
   * nothing (false). An object schema applies `type`, `enum`, `required`,
   * `properties` and `additionalProperties`; the last three constrain objects
   * only.
   */
  predicate Validates(inst: Value, schema: Value)
    decreases schema, 1
  {
    match schema
    case JBool(b) => b
    case JObj(kw) =>
      TypeOk(inst, kw) && EnumOk(inst, kw) && RequiredOk(inst, kw)
      && PropertiesOk(inst, schema) && AdditionalOk(inst, schema)
    case _ => false
  }

  /** The `type` keyword (its string form). */
  predicate TypeOk(inst: Value, kw: map<string, Value>) {
    "type" in kw ==> kw["type"].JStr? && HasType(inst, kw["type"].s)
  }

  /** The `enum` keyword. */
  predicate EnumOk(inst: Value, kw: map<string, Value>) {
    "enum" in kw && kw["enum"].JArr? ==> inst in kw["enum"].items
  }

  /** The `required` keyword: every listed name is a key of the instance object. */
  predicate RequiredOk(inst: Value, kw: map<string, Value>) {
    "required" in kw && kw["required"].JArr? && inst.JObj? ==>
      forall r :: r in kw["required"].items && r.JStr? ==> r.s in inst.fields
  }

  /** The `properties` keyword: each declared key the instance has passes its subschema. */
  predicate PropertiesOk(inst: Value, schema: Value)
    requires schema.JObj?
    decreases schema, 0
  {
    var kw := schema.fields;
    "properties" in kw && kw["properties"].JObj? && inst.JObj? ==>
      forall k :: k in inst.fields && k in kw["properties"].fields ==>
        Validates(inst.fields[k], kw["properties"].fields[k])
  }

  /** The `additionalProperties` keyword: each undeclared key passes its subschema. */
  predicate AdditionalOk(inst: Value, schema: Value)
    requires schema.JObj?
    decreases schema, 0
  {
    var kw := schema.fields;
    "additionalProperties" in kw && inst.JObj? ==>
      forall k :: k in inst.fields && k !in DeclaredProperties(kw) ==>
        Validates(inst.fields[k], kw["additionalProperties"])
  }

  /** `{"type": "string"}` */
  const STRING_SCHEMA: Value := JObj(DictOf([("type", JStr("string"))]))

  /** The first `status` entry of the command schema, the one with the enum. */
  const STATUS_ENUM_SCHEMA: Value := JObj(DictOf([
    ("type", JStr("string")),
    ("enum", JArr([JStr("NEW"), JStr("IN_PROGRESS"), JStr("SUCCESS"), JStr("FAILED")]))]))

  /** The `properties` literal of the command schema, `status` written twice. */
  const COMMAND_PROPERTY_ENTRIES: seq<(string, Value)> := [
    ("id", STRING_SCHEMA),
    ("status", STATUS_ENUM_SCHEMA),
    ("command", STRING_SCHEMA),
    ("status", STRING_SCHEMA),
    ("device_id", STRING_SCHEMA),
    ("error", STRING_SCHEMA)]

  /** SCHEMA_COMMAND_RESPONSE */
  const SCHEMA_COMMAND_RESPONSE: Value := JObj(DictOf(COMMAND_SCHEMA_ENTRIES))

  /** SCHEMA_ERROR_RESPONSE; `additionalOperations` is not a keyword of the draft. */
  const SCHEMA_ERROR_RESPONSE: Value := JObj(DictOf(ERROR_SCHEMA_ENTRIES))

  /** The five property names the command schema permits. */
  const COMMAND_FIELDS: set<string> := {"id", "status", "command", "device_id", "error"}

  /**
   * What the command schema effectively demands: an object holding `id` and
   * `status`, no key outside the five permitted ones, and a string under each
   * key it has. No enumeration constrains `status`.
   */
  predicate CommandResponseShape(v: Value) {
    && v.JObj?
    && "id" in v.fields && "status" in v.fields
    && v.fields.Keys <= COMMAND_FIELDS
    && forall k :: k in v.fields ==> v.fields[k].JStr?
  }

  /** What the error schema effectively demands: an object with a string `error`; other keys are free. */
  predicate ErrorResponseShape(v: Value) {
    v.JObj? && "error" in v.fields && v.fields["error"].JStr?
  }

  lemma StringSchemaMeaning(v: Value)
    ensures Validates(v, STRING_SCHEMA) <==> v.JStr?
  {
    assert DictOf([("type", JStr("string"))]) == map["type" := JStr("string")];
  }

  /** The `properties` dict keeps the later, enum-free `status` entry. */
  lemma CommandPropertiesEffective()
    ensures DictOf(COMMAND_PROPERTY_ENTRIES) ==
      map["id" := STRING_SCHEMA, "status" := STRING_SCHEMA, "command" := STRING_SCHEMA,
          "device_id" := STRING_SCHEMA, "error" := STRING_SCHEMA]
  {
    var es := COMMAND_PROPERTY_ENTRIES;
    var m := DictOf(es);
    assert m.Keys == COMMAND_FIELDS by {
      assert KeysOf(es) == COMMAND_FIELDS by {
        assert es[0].0 == "id" && es[1].0 == "status" && es[2].0 == "command";
        assert es[4].0 == "device_id" && es[5].0 == "error";
      }
    }
    DictOfLastEntry(es, 0);
    DictOfLastEntry(es, 2);
    DictOfLastEntry(es, 3);
    DictOfLastEntry(es, 4);
    DictOfLastEntry(es, 5);
  }

  const COMMAND_SCHEMA_ENTRIES: seq<(string, Value)> := [
    ("type", JStr("object")),
    ("properties", JObj(DictOf(COMMAND_PROPERTY_ENTRIES))),
    ("required", JArr([JStr("id"), JStr("status")])),
    ("additionalProperties", JBool(false))]

  lemma CommandSchemaKeywords()
    ensures SCHEMA_COMMAND_RESPONSE == JObj(map[
      "type" := JStr("object"),
      "properties" := JObj(DictOf(COMMAND_PROPERTY_ENTRIES)),
      "required" := JArr([JStr("id"), JStr("status")]),
      "additionalProperties" := JBool(false)])
  {
    var es := COMMAND_SCHEMA_ENTRIES;
    assert KeysOf(es) == {"type", "properties", "required", "additionalProperties"} by {
      assert es[0].0 == "type" && es[1].0 == "properties";
      assert es[2].0 == "required" && es[3].0 == "additionalProperties";
    }
    DictOfLastEntry(es, 0);
    DictOfLastEntry(es, 1);
    DictOfLastEntry(es, 2);
    DictOfLastEntry(es, 3);
  }

  /** `required` listing two names. */
  lemma RequiredTwo(v: Value, kw: map<string, Value>, a: string, b: string)
    requires "required" in kw && kw["required"] == JArr([JStr(a), JStr(b)])
    ensures RequiredOk(v, kw) <==> (v.JObj? ==> a in v.fields && b in v.fields)
  {
    assert JStr(a) in kw["required"].items && JStr(b) in kw["required"].items;
  }

  /** `properties` whose every subschema is STRING_SCHEMA. */
  lemma StringProperties(v: Value, schema: Value, names: set<string>)
    requires schema.JObj? && "properties" in schema.fields
    requires schema.fields["properties"] == JObj(map k | k in names :: STRING_SCHEMA)
    ensures PropertiesOk(v, schema) <==> (v.JObj? ==> forall k :: k in v.fields && k in names ==> v.fields[k].JStr?)
  {
    if v.JObj? {
      forall k | k in v.fields && k in names
        ensures Validates(v.fields[k], STRING_SCHEMA) <==> v.fields[k].JStr?
      {
        StringSchemaMeaning(v.fields[k]);
      }
    }
  }

  /** `additionalProperties: false` admits only declared keys. */
  lemma NoAdditional(v: Value, schema: Value)
    requires schema.JObj? && "additionalProperties" in schema.fields
    requires schema.fields["additionalProperties"] == JBool(false)
    ensures AdditionalOk(v, schema) <==> (v.JObj? ==> v.fields.Keys <= DeclaredProperties(schema.fields))
  {
    if v.JObj? && !AdditionalOk(v, schema) {
      var k :| k in v.fields && k !in DeclaredProperties(schema.fields);
    }
  }

  /**
   * An object schema whose declared properties are all strings, two of them
   * required, with `additionalProperties: false`.
   */
  lemma ClosedStringObjectMeaning(v: Value, schema: Value, names: set<string>, a: string, b: string)
    requires schema == JObj(map[
      "type" := JStr("object"),
      "properties" := JObj(map k | k in names :: STRING_SCHEMA),
      "required" := JArr([JStr(a), JStr(b)]),
      "additionalProperties" := JBool(false)])
    ensures Validates(v, schema) <==>
      && v.JObj? && a in v.fields && b in v.fields
      && v.fields.Keys <= names
      && forall k :: k in v.fields ==> v.fields[k].JStr?
  {
    var kw := schema.fields;
    assert TypeOk(v, kw) <==> v.JObj?;
    assert EnumOk(v, kw);
    RequiredTwo(v, kw, a, b);
    StringProperties(v, schema, names);
    assert DeclaredProperties(kw) == names;
    NoAdditional(v, schema);
  }

  /** The command schema accepts exactly the values of CommandResponseShape. */
  lemma CommandSchemaMeaning(v: Value)
    ensures Validates(v, SCHEMA_COMMAND_RESPONSE) <==> CommandResponseShape(v)
  {
    CommandSchemaKeywords();
    CommandPropertiesEffective();
    assert DictOf(COMMAND_PROPERTY_ENTRIES) == map k | k in COMMAND_FIELDS :: STRING_SCHEMA;
    ClosedStringObjectMeaning(v, SCHEMA_COMMAND_RESPONSE, COMMAND_FIELDS, "id", "status");
  }

  const ERROR_SCHEMA_ENTRIES: seq<(string, Value)> := [
    ("type", JStr("object")),
    ("properties", JObj(DictOf([("error", STRING_SCHEMA)]))),
    ("required", JArr([JStr("error")])),
    ("additionalOperations", JBool(false))]

  lemma ErrorSchemaKeywords()
    ensures SCHEMA_ERROR_RESPONSE == JObj(map[
      "type" := JStr("object"),
      "properties" := JObj(map["error" := STRING_SCHEMA]),
      "required" := JArr([JStr("error")]),
      "additionalOperations" := JBool(false)])
  {
    var es := ERROR_SCHEMA_ENTRIES;
    assert KeysOf(es) == {"type", "properties", "required", "additionalOperations"} by {
      assert es[0].0 == "type" && es[1].0 == "properties";
      assert es[2].0 == "required" && es[3].0 == "additionalOperations";
    }
    DictOfLastEntry(es, 0);
    DictOfLastEntry(es, 1);
    DictOfLastEntry(es, 2);
    DictOfLastEntry(es, 3);
    assert DictOf([("error", STRING_SCHEMA)]) == map["error" := STRING_SCHEMA];
  }

  /** The error schema accepts exactly the values of ErrorResponseShape. */
  lemma ErrorSchemaMeaning(v: Value)
    ensures Validates(v, SCHEMA_ERROR_RESPONSE) <==> ErrorResponseShape(v)
  {
    ErrorSchemaKeywords();
    if v.JObj? && "error" in v.fields {
      StringSchemaMeaning(v.fields["error"]);
    }
  }

  /** Any string status passes the command schema: the enumeration is not enforced. */
  lemma AnyStatusAccepted(id: string, status: string)
    ensures Validates(JObj(map["id" := JStr(id), "status" := JStr(status)]), SCHEMA_COMMAND_RESPONSE)
  {
    CommandSchemaMeaning(JObj(map["id" := JStr(id), "status" := JStr(status)]));
  }

  /** The discarded first `status` entry would have rejected a status outside its enumeration. */
  lemma EnumEntryRejectsUnknownStatus(status: string)
    requires status !in ["NEW", "IN_PROGRESS", "SUCCESS", "FAILED"]
    ensures !Validates(JStr(status), STATUS_ENUM_SCHEMA)
  {
    var es := [("type", JStr("string")),
      ("enum", JArr([JStr("NEW"), JStr("IN_PROGRESS"), JStr("SUCCESS"), JStr("FAILED")]))];
    DictOfLastEntry(es, 1);
  }

  /** A command response whose `error` is null fails the command schema. */
  lemma NullErrorRejected(v: Value)
    requires v.JObj? && "error" in v.fields && v.fields["error"] == JNull
    ensures !Validates(v, SCHEMA_COMMAND_RESPONSE)
  {
    CommandSchemaMeaning(v);
  }

  /** How `validate_response` and `validate_error` end: normally, or with an AssertionError. */
  datatype Check = Pass | AssertionFailure

  /** validate_response: returns normally exactly when the command schema accepts the data. */
  function ValidateResponse(data: Value): (c: Check)
    ensures c == Pass <==> CommandResponseShape(data)
  {
    CommandSchemaMeaning(data);
    if Validates(data, SCHEMA_COMMAND_RESPONSE) then Pass else AssertionFailure
  }

  /** validate_error: returns normally exactly when the error schema accepts the data. */
  function ValidateError(data: Value): (c: Check)
    ensures c == Pass <==> ErrorResponseShape(data)
  {
    ErrorSchemaMeaning(data);
    if Validates(data, SCHEMA_ERROR_RESPONSE) then Pass else AssertionFailure
  }
}
