/**
 * Field specs derived from an OpenAPI document (openapi_schema.py). Instead of
 * synthesising pydantic classes, a model is the map from field name to the field's
 * Python type and its `Field(...)` constraints. Every exception raised by the source's
 * own `.get`, `.items`, `[...]`, `.split` and `raise` on a malformed document is an
 * `Err`; failures inside `create_model` itself are not modelled.
 */
module OpenApiSchema {
  import opened Wrappers
  import opened Strings
  import opened Json

  datatype PyType = PyStr | PyInt | PyFloat | PyBool | PyList | PyDict

  /** `OPENAPI_TO_PYTHON_TYPES`. */
  const OpenApiToPythonTypes: map<string, PyType> :=
    map["string" := PyStr, "integer" := PyInt, "number" := PyFloat,
        "boolean" := PyBool, "array" := PyList, "object" := PyDict]

  /**
   * The exceptions on the modelled paths: `.get`, `.items` or `.split` on a value of the
   * wrong kind, a list or dict used as a dict key, the missing `"paths"` key, and the
   * two `ValueError`s the source raises itself.
   */
  datatype Error = AttributeError | TypeError | KeyError(key: string) | ValueError(message: string)

  /** One field: its type and the keyword arguments of its `Field(...)` (`ge`, `le`). */
  datatype FieldSpec = FieldSpec(kind: PyType, constraints: map<string, Json>)

  type Fields = map<string, FieldSpec>
  type Models = map<string, Fields>

  /** `OPENAPI_TO_PYTHON_TYPES.get(field_props.get("type"), str)`; a list or dict is unhashable. */
  function FieldType(props: seq<(string, Json)>): Result<PyType, Error>
  {
    match Get(props, "type")
    case Some(JStr(name)) => Ok(if name in OpenApiToPythonTypes then OpenApiToPythonTypes[name] else PyStr)
    case Some(JArr(_)) => Err(TypeError)
    case Some(JObj(_)) => Err(TypeError)
    case _ => Ok(PyStr)
  }

  /** `ge` from `minimum` and `le` from `maximum`, when present. */
  function Constraints(props: seq<(string, Json)>): map<string, Json>
  {
    var withGe := match Get(props, "minimum") case Some(v) => map["ge" := v] case None => map[];
    match Get(props, "maximum") case Some(v) => withGe["le" := v] case None => withGe
  }

  /** The field derived from one entry of `properties`. */
  function FieldOf(fieldProps: Json): Result<FieldSpec, Error>
  {
    if !fieldProps.JObj? then Err(AttributeError)
    else
      var kind :- FieldType(fieldProps.members);
      Ok(FieldSpec(kind, Constraints(fieldProps.members)))
  }

  /** The fields of one entry of `schemas`: `schema.get("properties", {}).items()`. */
  function SchemaFields(schema: Json): Result<Fields, Error>
  {
    if !schema.JObj? then Err(AttributeError)
    else
      match GetOr(schema.members, "properties", JObj([]))
      case JObj(properties) => Collect(properties, FieldOf)
      case _ => Err(AttributeError)
  }

  /**
   * A `for name, item in d.items()` loop that stores `derive(item)` under `name`,
   * in order, and stops at the first error.
   */
  function Collect<V>(items: seq<(string, Json)>, derive: Json -> Result<V, Error>): Result<map<string, V>, Error>
    decreases |items|
  {
    if items == [] then Ok(map[])
    else
      var n := |items| - 1;
      var done :- Collect(items[..n], derive);
      var v :- derive(items[n].1);
      Ok(done[items[n].0 := v])
  }

  /** What `get_models` returns for a document. */
  function DerivedModels(doc: Json): (r: Result<Models, Error>)
    ensures r.Ok? ==> doc.JObj?
  {
    if !doc.JObj? then Err(AttributeError)
    else
      match GetOr(doc.members, "components", JObj([]))
      case JObj(components) => (
        match GetOr(components, "schemas", JObj([]))
        case JObj(schemas) => Collect(schemas, SchemaFields)
        case _ => Err(AttributeError))
      case _ => Err(AttributeError)
  }

  /** An error part-way through a `Collect` is its result on the whole sequence. */
  lemma {:induction false} CollectErrSticks<V>(items: seq<(string, Json)>, derive: Json -> Result<V, Error>, k: nat)
    requires k <= |items| && Collect(items[..k], derive).Err?
    ensures Collect(items, derive) == Collect(items[..k], derive)
    decreases |items| - k
  {
    if k < |items| {
      var n := |items| - 1;
      assert items[..n][..k] == items[..k];
      CollectErrSticks(items[..n], derive, k);
    } else {
      assert items[..k] == items;
    }
  }

  /** One more successful item extends a successful `Collect` by its entry. */
  lemma CollectStep<V>(items: seq<(string, Json)>, derive: Json -> Result<V, Error>, i: nat, done: map<string, V>, v: V)
    requires i < |items| && Collect(items[..i], derive) == Ok(done) && derive(items[i].1) == Ok(v)
    ensures Collect(items[..i + 1], derive) == Ok(done[items[i].0 := v])
  {
    assert items[..i + 1][..i] == items[..i];
  }

  /** A failing item after a successful prefix is the error of the whole `Collect`. */
  lemma CollectStopsAt<V>(items: seq<(string, Json)>, derive: Json -> Result<V, Error>, i: nat)
    requires i < |items| && Collect(items[..i], derive).Ok? && derive(items[i].1).Err?
    ensures Collect(items, derive) == Err(derive(items[i].1).error)
  {
    assert items[..i + 1][..i] == items[..i];
    CollectErrSticks(items, derive, i + 1);
  }

  /** `get_models`: the nested loops of the source, filling `models` and each `fields` in turn. */
  method GetModels(openapiSchema: Json) returns (r: Result<Models, Error>)
    ensures r == DerivedModels(openapiSchema)
  {
    if !openapiSchema.JObj? {
      return Err(AttributeError);
    }
    var components := GetOr(openapiSchema.members, "components", JObj([]));
    if !components.JObj? {
      return Err(AttributeError);
    }
    var schemasObj := GetOr(components.members, "schemas", JObj([]));
    if !schemasObj.JObj? {
      return Err(AttributeError);
    }
    var schemas := schemasObj.members;
    var models: Models := map[];
    for i := 0 to |schemas|
      invariant Collect(schemas[..i], SchemaFields) == Ok(models)
    {
      var (name, schema) := schemas[i];
      var fields;
      fields := ModelFields(schema);
      if fields.Err? {
        CollectStopsAt(schemas, SchemaFields, i);
        return Err(fields.error);
      }
      CollectStep(schemas, SchemaFields, i, models, fields.value);
      models := models[name := fields.value];
    }
    assert schemas[..|schemas|] == schemas;
    return Ok(models);
  }

  /** The inner loop of `get_models`, over one schema's `properties`. */
  method ModelFields(schema: Json) returns (r: Result<Fields, Error>)
    ensures r == SchemaFields(schema)
  {
    if !schema.JObj? {
      return Err(AttributeError);
    }
    var propertiesObj := GetOr(schema.members, "properties", JObj([]));
    if !propertiesObj.JObj? {
      return Err(AttributeError);
    }
    var properties := propertiesObj.members;
    var fields: Fields := map[];
    for j := 0 to |properties|
      invariant Collect(properties[..j], FieldOf) == Ok(fields)
    {
      var (fieldName, fieldProps) := properties[j];
      var field := DeriveField(fieldProps);
      if field.Err? {
        CollectStopsAt(properties, FieldOf, j);
        return Err(field.error);
      }
      CollectStep(properties, FieldOf, j, fields, field.value);
      fields := fields[fieldName := field.value];
    }
    assert properties[..|properties|] == properties;
    return Ok(fields);
  }

  /** The body of the inner loop: the type lookup and the `field_constraints` dict of one property. */
  method DeriveField(fieldProps: Json) returns (r: Result<FieldSpec, Error>)
    ensures r == FieldOf(fieldProps)
  {
    if !fieldProps.JObj? {
      return Err(AttributeError);
    }
    var fieldType: PyType;
    match Get(fieldProps.members, "type") {
      case Some(JStr(typeName)) =>
        fieldType := if typeName in OpenApiToPythonTypes then OpenApiToPythonTypes[typeName] else PyStr;
      case Some(JArr(_)) =>
        return Err(TypeError);
      case Some(JObj(_)) =>
        return Err(TypeError);
      case _ =>
        fieldType := PyStr;
    }
    var fieldConstraints: map<string, Json> := map[];
    var minimum := Get(fieldProps.members, "minimum");
    if minimum.Some? {
      fieldConstraints := fieldConstraints["ge" := minimum.value];
    }
    var maximum := Get(fieldProps.members, "maximum");
    if maximum.Some? {
      fieldConstraints := fieldConstraints["le" := maximum.value];
    }
    return Ok(FieldSpec(fieldType, fieldConstraints));
  }

  /** `schema_ref.split("/")[-1]`. */
  function LastSegment(s: string): (r: string)
    ensures '/' !in r
    ensures |r| <= |s| && s[|s| - |r|..] == r
    ensures |r| < |s| ==> s[|s| - |r| - 1] == '/'
  {
    var parts := Split(s, '/');
    JoinLast(parts, '/');
    assert |parts| == 1 ==> Join(parts, '/') == parts[0];
    parts[|parts| - 1]
  }

  /** `d.get(key, default)` where the source assumes `d` is a dict. */
  function Lookup(d: Json, key: string, default: Json): Result<Json, Error>
  {
    if d.JObj? then Ok(GetOr(d.members, key, default)) else Err(AttributeError)
  }

  /** The `$ref` under `paths[endpoint].get.requestBody.content["application/json"].schema`, `""` where a step is missing. */
  function SchemaRef(paths: Json, endpoint: string): Result<Json, Error>
  {
    var operations :- Lookup(paths, endpoint, JObj([]));
    var operation :- Lookup(operations, "get", JObj([]));
    var requestBody :- Lookup(operation, "requestBody", JObj([]));
    var content :- Lookup(requestBody, "content", JObj([]));
    var media :- Lookup(content, "application/json", JObj([]));
    var schema :- Lookup(media, "schema", JObj([]));
    Lookup(schema, "$ref", JStr(""))
  }

  function NoReferenceMessage(endpoint: string): string
  {
    "No schema reference found for endpoint: " + endpoint
  }

  function NotFoundMessage(name: string): string
  {
    "Schema '" + name + "' not found in models."
  }

  /** `get_model_for_endpoint`: the model named by the last segment of the endpoint's request-body `$ref`. */
  function ModelForEndpoint(endpoint: string, doc: Json): Result<Fields, Error>
  {
    var models :- DerivedModels(doc);
    match Get(doc.members, "paths")
    case None => Err(KeyError("paths"))
    case Some(paths) =>
      var schemaRef :- SchemaRef(paths, endpoint);
      Resolve(endpoint, models, schemaRef)
  }

  /** The two checks on the `$ref`: it must be truthy, then a string whose last segment names a model. */
  function Resolve(endpoint: string, models: Models, schemaRef: Json): Result<Fields, Error>
  {
    if !Truthy(schemaRef) then Err(ValueError(NoReferenceMessage(endpoint)))
    else if !schemaRef.JStr? then Err(AttributeError)
    else
      var schemaName := LastSegment(schemaRef.s);
      if schemaName in models then Ok(models[schemaName]) else Err(ValueError(NotFoundMessage(schemaName)))
  }

  // ---------------------------------------------------------------- properties of the derivation

  function Names(items: seq<(string, Json)>): set<string>
  {
    set i | 0 <= i < |items| :: items[i].0
  }

  /** `Collect` stores exactly one entry per name it walks over. */
  lemma {:induction false} CollectKeys<V>(items: seq<(string, Json)>, derive: Json -> Result<V, Error>, m: map<string, V>)
    requires Collect(items, derive) == Ok(m)
    ensures m.Keys == Names(items)
    decreases |items|
  {
    if items != [] {
      var n := |items| - 1;
      var done := Collect(items[..n], derive).value;
      CollectKeys(items[..n], derive, done);
      assert Names(items) == Names(items[..n]) + {items[n].0} by {
        forall x | x in Names(items) ensures x in Names(items[..n]) + {items[n].0} {
          var i :| 0 <= i < |items| && items[i].0 == x;
          if i < n { assert items[..n][i] == items[i]; }
        }
        forall x | x in Names(items[..n]) ensures x in Names(items) {
          var i :| 0 <= i < n && items[..n][i].0 == x;
          assert items[i] == items[..n][i];
        }
      }
    }
  }

  /** In a dict, the entry `Collect` stores under a member's name is what `derive` makes of that member. */
  lemma {:induction false} CollectAt<V>(items: seq<(string, Json)>, derive: Json -> Result<V, Error>, m: map<string, V>, i: nat)
    requires DistinctKeys(items) && i < |items|
    requires Collect(items, derive) == Ok(m)
    ensures items[i].0 in m && derive(items[i].1) == Ok(m[items[i].0])
    decreases |items|
  {
    var n := |items| - 1;
    var done := Collect(items[..n], derive).value;
    if i < n {
      assert DistinctKeys(items[..n]) by {
        forall a, b | 0 <= a < b < n ensures items[..n][a].0 != items[..n][b].0 {
          assert items[..n][a] == items[a] && items[..n][b] == items[b];
        }
      }
      assert items[..n][i] == items[i];
      CollectAt(items[..n], derive, done, i);
      assert items[i].0 != items[n].0;
    }
  }

  /** `Collect` succeeds exactly when `derive` succeeds on every member. */
  lemma {:induction false} CollectOkIff<V>(items: seq<(string, Json)>, derive: Json -> Result<V, Error>)
    ensures Collect(items, derive).Ok? <==> forall i :: 0 <= i < |items| ==> derive(items[i].1).Ok?
    decreases |items|
  {
    if items != [] {
      var n := |items| - 1;
      CollectOkIff(items[..n], derive);
      assert forall i :: 0 <= i < n ==> items[..n][i] == items[i];
    }
  }

  /** The table maps each of its six type names, and nothing else. */
  lemma TypeTable()
    ensures OpenApiToPythonTypes.Keys == {"string", "integer", "number", "boolean", "array", "object"}
    ensures OpenApiToPythonTypes["string"] == PyStr && OpenApiToPythonTypes["integer"] == PyInt
    ensures OpenApiToPythonTypes["number"] == PyFloat && OpenApiToPythonTypes["boolean"] == PyBool
    ensures OpenApiToPythonTypes["array"] == PyList && OpenApiToPythonTypes["object"] == PyDict
  {
  }

  /** A tabled `type` gives its tag; a missing, unknown or non-string scalar `type` gives `str`; a list or dict raises. */
  lemma FieldTypeMapping(props: seq<(string, Json)>)
    ensures Get(props, "type").Some? && Get(props, "type").value.JStr? && Get(props, "type").value.s in OpenApiToPythonTypes
      ==> FieldType(props) == Ok(OpenApiToPythonTypes[Get(props, "type").value.s])
    ensures Get(props, "type").None? || (Get(props, "type").value.JStr? && Get(props, "type").value.s !in OpenApiToPythonTypes)
      ==> FieldType(props) == Ok(PyStr)
    ensures var t := Get(props, "type");
      t.Some? && !t.value.JStr? && !t.value.JArr? && !t.value.JObj? ==> FieldType(props) == Ok(PyStr)
    ensures FieldType(props).Err? <==> Get(props, "type").Some? && (Get(props, "type").value.JArr? || Get(props, "type").value.JObj?)
  {
  }

  /** `ge` is present exactly when `minimum` is, with its value; likewise `le` and `maximum`; nothing else. */
  lemma ConstraintsFromBounds(props: seq<(string, Json)>)
    requires DistinctKeys(props)
    ensures var c := Constraints(props);
      && c.Keys <= {"ge", "le"}
      && ("ge" in c <==> exists i :: 0 <= i < |props| && props[i].0 == "minimum")
      && ("le" in c <==> exists i :: 0 <= i < |props| && props[i].0 == "maximum")
      && (forall i :: 0 <= i < |props| && props[i].0 == "minimum" ==> c["ge"] == props[i].1)
      && (forall i :: 0 <= i < |props| && props[i].0 == "maximum" ==> c["le"] == props[i].1)
  {
  }

  /** The derived models have one entry per name under `components.schemas`. */
  lemma OneModelPerSchema(doc: Json, schemas: seq<(string, Json)>, models: Models)
    requires doc.JObj?
    requires GetOr(doc.members, "components", JObj([])).JObj?
    requires GetOr(GetOr(doc.members, "components", JObj([])).members, "schemas", JObj([])) == JObj(schemas)
    requires DerivedModels(doc) == Ok(models)
    ensures models.Keys == Names(schemas)
    ensures DistinctKeys(schemas) ==> forall i :: 0 <= i < |schemas| ==> SchemaFields(schemas[i].1) == Ok(models[schemas[i].0])
  {
    CollectKeys(schemas, SchemaFields, models);
    if DistinctKeys(schemas) {
      forall i | 0 <= i < |schemas| ensures SchemaFields(schemas[i].1) == Ok(models[schemas[i].0]) {
        CollectAt(schemas, SchemaFields, models, i);
      }
    }
  }

  /** A schema's model has one field per name under its `properties`, each derived from that property. */
  lemma OneFieldPerProperty(schema: seq<(string, Json)>, properties: seq<(string, Json)>, fields: Fields)
    requires GetOr(schema, "properties", JObj([])) == JObj(properties)
    requires SchemaFields(JObj(schema)) == Ok(fields)
    ensures fields.Keys == Names(properties)
    ensures DistinctKeys(properties) ==> forall i :: 0 <= i < |properties| ==> FieldOf(properties[i].1) == Ok(fields[properties[i].0])
  {
    CollectKeys(properties, FieldOf, fields);
    if DistinctKeys(properties) {
      forall i | 0 <= i < |properties| ensures FieldOf(properties[i].1) == Ok(fields[properties[i].0]) {
        CollectAt(properties, FieldOf, fields, i);
      }
    }
  }

  /** No `components`, or no `schemas`, gives no models; no `properties` gives a model without fields. */
  lemma EmptyCases(doc: seq<(string, Json)>, schema: seq<(string, Json)>)
    ensures Get(doc, "components").None? ==> DerivedModels(JObj(doc)) == Ok(map[])
    ensures Get(doc, "components").Some? && Get(doc, "components").value.JObj? && Get(Get(doc, "components").value.members, "schemas").None?
      ==> DerivedModels(JObj(doc)) == Ok(map[])
    ensures Get(schema, "properties").None? ==> SchemaFields(JObj(schema)) == Ok(map[])
  {
  }

  /** The last segment is the only `/`-free suffix that is the whole string or follows a `/`. */
  lemma AfterLastSlash(s: string, r: string)
    requires '/' !in r && |r| <= |s| && s[|s| - |r|..] == r
    requires |r| < |s| ==> s[|s| - |r| - 1] == '/'
    ensures r == LastSegment(s)
  {
  }

  /** A `$ref` with no `/` names its schema whole. */
  lemma NoSlashUsedWhole(s: string)
    requires '/' !in s
    ensures LastSegment(s) == s
  {
    AfterLastSlash(s, s);
  }

  /** A successful lookup went through every step: models, `paths`, a non-empty string `$ref`, a known name. */
  lemma EndpointSucceeds(endpoint: string, doc: Json)
    requires ModelForEndpoint(endpoint, doc).Ok?
    ensures DerivedModels(doc).Ok? && Get(doc.members, "paths").Some?
    ensures var ref := SchemaRef(Get(doc.members, "paths").value, endpoint);
      && ref.Ok? && ref.value.JStr? && ref.value.s != ""
      && LastSegment(ref.value.s) in DerivedModels(doc).value
      && ModelForEndpoint(endpoint, doc) == Ok(DerivedModels(doc).value[LastSegment(ref.value.s)])
  {
    var models := DerivedModels(doc).value;
    var ref := SchemaRef(Get(doc.members, "paths").value, endpoint);
    assert ModelForEndpoint(endpoint, doc) == Resolve(endpoint, models, ref.value);
  }

  /** An absent or empty `$ref` raises `ValueError`; a non-empty one names the model after its last `/`, or raises if unknown. */
  lemma EndpointReference(endpoint: string, doc: Json, models: Models, paths: Json, ref: Json)
    requires DerivedModels(doc) == Ok(models)
    requires Get(doc.members, "paths") == Some(paths)
    requires SchemaRef(paths, endpoint) == Ok(ref)
    ensures ref == JStr("") ==> ModelForEndpoint(endpoint, doc) == Err(ValueError(NoReferenceMessage(endpoint)))
    ensures ref.JStr? && ref.s != "" ==>
      ModelForEndpoint(endpoint, doc) ==
        if LastSegment(ref.s) in models then Ok(models[LastSegment(ref.s)])
        else Err(ValueError(NotFoundMessage(LastSegment(ref.s))))
  {
  }

  /** An endpoint missing from `paths` has the default `$ref` `""`, so the lookup raises `ValueError`. */
  lemma UnlistedEndpoint(endpoint: string, doc: Json, models: Models, paths: seq<(string, Json)>)
    requires DerivedModels(doc) == Ok(models)
    requires Get(doc.members, "paths") == Some(JObj(paths))
    requires Get(paths, endpoint).None?
    ensures ModelForEndpoint(endpoint, doc) == Err(ValueError(NoReferenceMessage(endpoint)))
  {
  }

  /** A document without `paths` raises `KeyError` once its models derive. */
  lemma MissingPaths(endpoint: string, doc: Json)
    requires DerivedModels(doc).Ok? && Get(doc.members, "paths").None?
    ensures ModelForEndpoint(endpoint, doc) == Err(KeyError("paths"))
  {
  }

  /** The `User` schema: a string `name` and an integer `age` of at least 0. */
  function UserProperties(): seq<(string, Json)>
  {
    [("name", JObj([("type", JStr("string"))])),
     ("age", JObj([("type", JStr("integer")), ("minimum", JNum(0, 0))]))]
  }

  /** A document whose `GET /users` request body refers to `User`. */
  function UsersDocument(): Json
  {
    var body := JObj([("content", JObj([("application/json", JObj([("schema", JObj([("$ref", JStr("#/components/schemas/User"))]))]))]))]);
    JObj([
      ("components", JObj([("schemas", JObj([("User", JObj([("properties", JObj(UserProperties()))]))]))])),
      ("paths", JObj([("/users", JObj([("get", JObj([("requestBody", body)]))]))]))])
  }

  function UserFields(): Fields
  {
    map["name" := FieldSpec(PyStr, map[]), "age" := FieldSpec(PyInt, map["ge" := JNum(0, 0)])]
  }

  lemma UserFieldsDerived()
    ensures Collect(UserProperties(), FieldOf) == Ok(UserFields())
  {
  }

  lemma UsersModelsDerived()
    ensures DerivedModels(UsersDocument()) == Ok(map["User" := UserFields()])
  {
    UserFieldsDerived();
    var schemas := [("User", JObj([("properties", JObj(UserProperties()))]))];
    assert SchemaFields(schemas[0].1) == Ok(UserFields());
    assert schemas[..0] == [];
    assert Collect(schemas, SchemaFields) == Ok(map["User" := UserFields()]);
  }

  function UsersPaths(): Json
  {
    UsersDocument().members[1].1
  }

  lemma UsersReference()
    ensures Get(UsersDocument().members, "paths") == Some(UsersPaths())
    ensures SchemaRef(UsersPaths(), "/users") == Ok(JStr("#/components/schemas/User"))
    ensures SchemaRef(UsersPaths(), "/orders") == Ok(JStr(""))
  {
  }

  lemma UserReferenceName()
    ensures LastSegment("#/components/schemas/User") == "User"
  {
    var s := "#/components/schemas/User";
    assert s[|s| - 4..] == "User";
    assert s[|s| - 5] == '/';
    AfterLastSlash(s, "User");
  }

  /** `GET /users` resolves to the `User` model. */
  lemma UsersExample()
    ensures ModelForEndpoint("/users", UsersDocument()) == Ok(UserFields())
  {
    UsersModelsDerived();
    UsersReference();
    UserReferenceName();
    EndpointReference("/users", UsersDocument(), map["User" := UserFields()], UsersPaths(), JStr("#/components/schemas/User"));
  }

  /** An endpoint not under `paths` raises the missing-reference `ValueError`. */
  lemma OrdersExample()
    ensures ModelForEndpoint("/orders", UsersDocument()) == Err(ValueError(NoReferenceMessage("/orders")))
  {
    UsersModelsDerived();
    UsersReference();
    EndpointReference("/orders", UsersDocument(), map["User" := UserFields()], UsersPaths(), JStr(""));
  }
}
