/** Event payloads and what makes one acceptable: for its registered schema, or without a registry. */
module EventSchemas {
  import opened Common

  /** Payload values; `text` is what `str` makes of a value that is no string. */
  datatype Value =
    | Text(s: string)
    | Integer(n: int)
    | Float(r: real, text: string)
    | Boolean(b: bool)
    | Dict(size: nat, text: string)
    | List(size: nat, text: string)
    | Null

  type Payload = map<string, Value>

  datatype Schema = Schema(requiredFields: set<string>, fieldTypes: map<string, string>)

  type Schemas = map<(string, int), Schema>

  /** Why a payload is refused; the first reason found is the one raised. */
  datatype PayloadFault = Unregistered | MissingFields | OtherTenant | WrongFieldType

  const CORE_FIELDS: set<string> := {"tenant_id", "actor_id", "request_id"}

  function RequiredPayloadFields(schema: Schema): set<string> {
    CORE_FIELDS + schema.requiredFields
  }

  predicate MatchesFieldType(v: Value, expected: string) {
    match expected
    case "str" => v.Text?
    case "int" => v.Integer?
    case "float" => v.Float?
    case "number" => v.Integer? || v.Float?
    case "bool" => v.Boolean?
    case "dict" => v.Dict?
    case "list" => v.List?
    case _ => false
  }

  predicate FieldsMatch(schema: Schema, payload: Payload) {
    forall field | field in schema.fieldTypes && field in payload :: MatchesFieldType(payload[field], schema.fieldTypes[field])
  }

  /** `validate_event`. */
  function Fault(schemas: Schemas, eventType: string, eventVersion: int, tenantId: string,
                 payload: Payload): Option<PayloadFault> {
    if (eventType, eventVersion) !in schemas then Some(Unregistered)
    else
      var schema := schemas[(eventType, eventVersion)];
      if !(RequiredPayloadFields(schema) <= payload.Keys) then Some(MissingFields)
      else if payload["tenant_id"] != Text(tenantId) then Some(OtherTenant)
      else if !FieldsMatch(schema, payload) then Some(WrongFieldType)
      else None
  }

  /** The check of a repository that was given no registry. */
  function CoreFault(tenantId: string, payload: Payload): Option<PayloadFault> {
    if !(CORE_FIELDS <= payload.Keys) then Some(MissingFields)
    else if payload["tenant_id"] != Text(tenantId) then Some(OtherTenant)
    else None
  }

  /** The registry asks for everything that the check without one asks for, and more. */
  lemma RegistryIsStricter(schemas: Schemas, eventType: string, eventVersion: int, tenantId: string, payload: Payload)
    ensures Fault(schemas, eventType, eventVersion, tenantId, payload).None? <==>
            && CoreFault(tenantId, payload).None?
            && (eventType, eventVersion) in schemas
            && schemas[(eventType, eventVersion)].requiredFields <= payload.Keys
            && FieldsMatch(schemas[(eventType, eventVersion)], payload)
  {
    if (eventType, eventVersion) in schemas {
      var schema := schemas[(eventType, eventVersion)];
      assert RequiredPayloadFields(schema) <= payload.Keys <==> CORE_FIELDS <= payload.Keys && schema.requiredFields <= payload.Keys;
    }
  }

  /** The type that Python gives a value, by the name a schema uses for it. */
  function TypeName(v: Value): Option<string> {
    match v
    case Text(_) => Some("str")
    case Integer(_) => Some("int")
    case Float(_, _) => Some("float")
    case Boolean(_) => Some("bool")
    case Dict(_, _) => Some("dict")
    case List(_, _) => Some("list")
    case Null => None
  }

  /** A field type accepts the values of that type alone, but for "number", which accepts integers and floats. */
  lemma TypeAccepts(v: Value, expected: string)
    ensures MatchesFieldType(v, expected) <==>
            if expected == "number" then TypeName(v) in {Some("int"), Some("float")} else TypeName(v) == Some(expected)
  {
  }

  /** Which fault is raised: the first that applies of an unknown event, a required field that is not there, a tenant
      that is not the event's, and a field of another type than the schema's. */
  lemma FirstFault(schemas: Schemas, eventType: string, eventVersion: int, tenantId: string, payload: Payload)
    ensures var fault := Fault(schemas, eventType, eventVersion, tenantId, payload);
            if (eventType, eventVersion) !in schemas then fault == Some(Unregistered)
            else
              var schema := schemas[(eventType, eventVersion)];
              if exists field :: field !in payload && (field in CORE_FIELDS || field in schema.requiredFields)
              then fault == Some(MissingFields)
              else if payload["tenant_id"] != Text(tenantId) then fault == Some(OtherTenant)
              else if exists field | field in schema.fieldTypes && field in payload ::
                        !MatchesFieldType(payload[field], schema.fieldTypes[field])
              then fault == Some(WrongFieldType)
              else fault == None
    ensures var fault := CoreFault(tenantId, payload);
            if exists field :: field !in payload && field in {"tenant_id", "actor_id", "request_id"}
            then fault == Some(MissingFields)
            else if payload["tenant_id"] != Text(tenantId) then fault == Some(OtherTenant)
            else fault == None
  {
    assert CORE_FIELDS <= payload.Keys <==> forall field :: field in CORE_FIELDS ==> field in payload;
    if (eventType, eventVersion) in schemas {
      var schema := schemas[(eventType, eventVersion)];
      assert RequiredPayloadFields(schema) <= payload.Keys <==>
        forall field :: field in CORE_FIELDS || field in schema.requiredFields ==> field in payload;
    }
  }
}
