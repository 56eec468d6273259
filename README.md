# config-writer in Dafny

A model of a small configuration key-value service and its proofs. Each entry of
the `configs` table has a unique `key`, a string `value` and a `type` tag
(`"string"` or `"boolean"`). The `DB` client reaches the table through one session
that is opened at startup and closed at shutdown. Five HTTP routes read, create,
update and delete entries. A helper script derives request-validation models from
an OpenAPI document.

Modules, one per source file:

- `ConfigEntity` (`config_entity.dfy`, models/db.py): the row record `Config`, the column
  default `"string"`, and `Repr`, the `__repr__` text. Its partner is `ParseRepr`, which
  reads that text back.
- `Store` (`store.dfy`, clients/db.py): class `DB`. The table is the field `rows`, a map
  `Table` from key to row. `Keyed` (each row stored under its own key) is the unique
  constraint and the class invariant. The session is the flag `open`. The ghost counter
  `sessions` counts how many sessions were created.
- `Api` (`api.dfy`, main.py): one method per route, plus the start, serve and close loops
  of `lifespan`. `Answers` states the reply a route owes for a given table. `Apply` states
  the table afterwards. `Trace` and `ApplyAll` extend these to a sequence of requests.
- `Json` (`json.dfy`) and `OpenApiSchema` (`openapi_schema.dfy`, openapi_schema.py): a
  decoded JSON document, and the derivation of models. A model maps each field name to
  `FieldSpec(type, constraints)`, where `constraints` holds `ge` and `le`.
  `DerivedModels` specifies the nested loops of `GetModels`. `ModelForEndpoint` is
  `get_model_for_endpoint`. Every exception raised by the source's own `.get`, `.items`,
  `[...]`, `.split` and `raise` on these paths is an `Err`; failures inside
  `create_model` are not modelled.
- `Strings` (`strings.dfy`): `str.split` with a one-character separator, and its inverse
  `Join`. `Wrappers` (`wrappers.dfy`): `Option` and `Result`.

The Python leaves three conditions to its callers. The model states them as `requires`:

- Every data operation needs an open session. Otherwise `self.db` is `None`.
- `Update` needs the key to be present. Otherwise the code dereferences `None`.
- `Create` needs the key to be absent. Otherwise the unique constraint fails.

The handlers check the last two before they call the store.

## Model

| member | source | states |
|---|---|---|
| ConfigEntity.TypeDefaultsToString | models/db.py:14 | a row inserted without a type is stored with the type `"string"` |
| ConfigEntity.ParseReprInverse | models/db.py:16-17 | if no field contains a quote, reading back `Repr(c)` gives `c`: the text is exactly `<Config(key='K', value='V', type='T')>` |
| ConfigEntity.ReprOfParse | models/db.py:16-17 | any text `ParseRepr` accepts is `Repr` of the row it returns, and that row has no quotes |
| ConfigEntity.ReprInjective | models/db.py:16-17 | two quote-free rows with the same `__repr__` text are the same row |
| ConfigEntity.ReprNotInjective | models/db.py:16-17 | with quotes in the fields, two different rows can have the same `__repr__` text |
| Store.DB.constructor | clients/db.py:12-17 | a new client has no session and sees the table as it is |
| Store.DB.Start | clients/db.py:19-21 | afterwards a session is open; a new one is created only if none was open; the table is unchanged |
| Store.StartIsIdempotent | clients/db.py:19-21 | two `start` calls leave the same state as one: a single session, the same table |
| Store.DB.Get | clients/db.py:23-24 | returns a row exactly when some row has key `k`, and then a row of the table with key `k`; changes nothing |
| Store.DB.GetAll | clients/db.py:26-27 | returns every row of the table exactly once; changes nothing |
| Store.DB.Create | clients/db.py:29-34 | for an absent key, adds exactly the row `(k, v, t)` and returns it; other rows and the session are unchanged |
| Store.DB.Update | clients/db.py:36-41 | for a present key, sets its value to `v` and keeps its type; other rows are unchanged; returns the new row |
| Store.DB.Delete | clients/db.py:43-49 | an absent key gives `None` and no change; a present key is removed and its previous row is returned; other rows stay |
| Store.DB.Close | clients/db.py:51-54 | afterwards no session is open; the table is unchanged; closing when already closed changes nothing |
| Store.CloseIsIdempotent | clients/db.py:51-54 | two `close` calls leave the same state as one |
| Api.ReadConfigs | main.py:47-50 | answers 200 with every stored row once; changes nothing |
| Api.ReadConfig | main.py:53-58 | answers 404 exactly when the key is absent, otherwise 200 with its row; changes nothing |
| Api.CreateConfig | main.py:61-68 | a duplicate key answers 400 and changes nothing; a new key stores and returns the request's key, value and type |
| Api.UpdateConfig | main.py:71-77 | an absent key answers 404 and changes nothing; a present key gets the new value and keeps its key and type |
| Api.DeleteConfigHandler | main.py:80-86 | an absent key answers 404 and changes nothing; a present key is removed and its last row returned |
| Api.Handle | main.py:47-86 | each route's reply and new table are the ones `Answers` and `Apply` prescribe; the session stays open and no new session is counted |
| Api.ReadStatus | main.py:53-58 | a read answers 404 if and only if the key is absent, and otherwise 200 with the stored row |
| Api.StatusCodes | main.py:47-86 | every reply is 200, 400 or 404; 400 exactly for a create of an existing key; 404 exactly for a read, update or delete of an absent key |
| Api.ErrorHasNoEffect | main.py:61-86 | a route that answers with an error leaves the table unchanged |
| Api.ApplyKeepsKeyed | models/db.py:12 | every route keeps keys unique |
| Api.ApplyAllKeepsKeyed | models/db.py:12 | keys stay unique over any sequence of requests |
| Api.CreateThenRead | main.py:61-68 | after creating a new key, the create and a following read both answer 200 with the requested record; other rows stay |
| Api.UpdateChangesOnlyValue | main.py:71-77 | an update keeps the set of keys, the key and the type, sets the value, and leaves every other row unchanged |
| Api.DeleteThenRead | main.py:80-86 | deleting a present key returns its last row, removes only that key, and a following read answers 404 |
| Api.TraceAt | main.py:47-86 | in a served sequence, reply i is the one owed to request i on the table the first i requests left |
| Api.RoundTrip | main.py:53-86 | POST, GET, PUT, GET, DELETE, GET on a new key answer: created, created, updated, updated, updated, 404; the table ends as it began |
| Api.FeatureFlagScenario | main.py:53-86 | the `feature_x` example: `"true"` twice, `"false"` three times, then `Config not found` |
| Api.RoundTripThroughHandlers | main.py:53-86 | the same round trip run through the handler methods on a live store gives the same six replies |
| Api.Published | main.py:20-22 | `app.state` holds one attribute per registered name, each bound to a service registered under it |
| Api.StartAll | main.py:20-22 | every service is started and published; no table changes |
| Api.Serve | main.py:23-24 | requests served on the open store get the replies `Trace` prescribes, and the table becomes `ApplyAll` of them; no new session is counted |
| Api.CloseAll | main.py:26-27 | every service is closed; no table changes |
| Api.Lifespan | main.py:17-27 | services start before any request, the `db` service serves every request, and every service is closed at the end |
| Strings.Split | openapi_schema.py:67 | `split` gives at least one piece, no piece contains the separator, and joining the pieces gives back the string |
| Strings.SplitUnique | openapi_schema.py:67 | `split` is the only way to cut a string into separator-free pieces that join back to it |
| OpenApiSchema.LastSegment | openapi_schema.py:67 | `split("/")[-1]` is a suffix with no `/`; it is either the whole string or it follows a `/` |
| OpenApiSchema.AfterLastSlash | openapi_schema.py:67 | any `/`-free suffix that is the whole string or follows a `/` equals `split("/")[-1]`: the text after the last `/` |
| OpenApiSchema.NoSlashUsedWhole | openapi_schema.py:67 | a `$ref` without `/` is used as the name unchanged |
| OpenApiSchema.GetModels | openapi_schema.py:24-45 | the nested loops return what `DerivedModels` prescribes, including the first error raised |
| OpenApiSchema.ModelFields | openapi_schema.py:27-41 | the inner loop returns `SchemaFields` of the schema |
| OpenApiSchema.DeriveField | openapi_schema.py:29-38 | one property's type and constraints are `FieldOf` of that property |
| OpenApiSchema.DerivedModels | openapi_schema.py:24-26 | a document that is not a dict raises |
| OpenApiSchema.TypeTable | openapi_schema.py:6-13 | the table maps exactly the six OpenAPI type names to str, int, float, bool, list and dict |
| OpenApiSchema.FieldTypeMapping | openapi_schema.py:29-31 | a tabled `type` gives its tag; a missing, unknown or non-string scalar `type` gives `str`; a list or dict `type` raises `TypeError` |
| OpenApiSchema.ConstraintsFromBounds | openapi_schema.py:32-38 | `ge` is present exactly when `minimum` is, with its value, and likewise `le` with `maximum`; there are no other constraints |
| OpenApiSchema.CollectErrSticks | openapi_schema.py:26-44 | once an error is raised, the rest of the loop does not run and the error is the result |
| OpenApiSchema.CollectKeys | openapi_schema.py:26-44 | each loop stores exactly one entry per name it walks over |
| OpenApiSchema.CollectAt | openapi_schema.py:26-44 | in a dict, the entry stored under a name is what that name's item derives to |
| OpenApiSchema.CollectOkIff | openapi_schema.py:26-44 | a loop succeeds if and only if every item derives without error |
| OpenApiSchema.OneModelPerSchema | openapi_schema.py:26-44 | the result has exactly one model per name under `components.schemas`: that schema's fields |
| OpenApiSchema.OneFieldPerProperty | openapi_schema.py:28-41 | a model has exactly one field per name under its schema's `properties`, derived from that property |
| OpenApiSchema.EmptyCases | openapi_schema.py:26-28 | no `components` or no `schemas` gives no models; a schema without `properties` gives a model without fields |
| OpenApiSchema.EndpointSucceeds | openapi_schema.py:48-72 | a successful lookup found `paths` and a non-empty string `$ref`, and returns the model named by its last segment |
| OpenApiSchema.EndpointReference | openapi_schema.py:56-72 | an empty `$ref` raises "No schema reference found for endpoint: …"; otherwise the name after the last `/` is looked up, and an unknown name raises "Schema '…' not found in models." |
| OpenApiSchema.UnlistedEndpoint | openapi_schema.py:53-64 | an endpoint missing from `paths` ends with the default `$ref` `""` and raises `ValueError` |
| OpenApiSchema.MissingPaths | openapi_schema.py:53-54 | a document without `paths` raises `KeyError` |
| OpenApiSchema.UsersExample | openapi_schema.py:48-72 | for a `User` schema referenced by `GET /users`, the model is `name: str`, `age: int` with `ge=0` |
| OpenApiSchema.OrdersExample | openapi_schema.py:63-64 | in the same document, `/orders` raises the missing-reference `ValueError` |
| Json.GetMember | openapi_schema.py:28-31 | in a dict, `d.get(k)` finds the value stored under `k` |

## Left out

- The surrogate `id` column and its auto-assigned values (models/db.py:11): the model
  identifies rows by `key`. The model has no `id`, so `ConfigResponse` has nothing to drop.
- SQLAlchemy: the engine, `sessionmaker`, `add`, `commit` and `refresh`. Each mutating call
  is one atomic step on the map. Storage faults such as a lost connection are not modelled.
- Python exceptions during `lifespan`. Dafny has no exceptions, so the close loop runs
  after serving unconditionally; that is what `finally` guarantees. A `start()` that raises
  in the first loop would skip the close loop in the source, because it runs before the
  `try`. The model does not capture that case.
- Serving is a finite sequence of requests handled one at a time on the `db` service.
  Concurrent requests on the shared session are not modelled.
- FastAPI routing, dependency injection (`get_client`, `DBDependency`), CORS, uvicorn and
  the static mount (clients/db.py:57-64, main.py:30-43, 89-93). `Handle` dispatches a
  request to its handler, but it is not the router. Payload validation by pydantic is left
  out too: requests arrive as records.
- Keys the router cannot address. `RoundTrip` and the other properties of `Request`
  sequences hold per handler, for any key. Over HTTP, the path parameter of `/configs/{key}` matches only keys that are
  non-empty and free of `/`. So a key such as `"a/b"` or `""` can be created with
  `POST /configs`, but the router never sends a later GET, PUT or DELETE for it to the
  handlers; it answers 404 "Not Found" or redirects to the list route instead.
- settings.py, services.py and create_tables.py are not part of this model. Configuration
  and DDL are I/O. The registry is a parameter of `Lifespan`.
- The fetch `get_openapi_schema` (openapi_schema.py:17-20) and the demo script
  (openapi_schema.py:80-96) do network I/O and print. The `print` at openapi_schema.py:50
  is left out.
- pydantic `create_model`, `Field` and `validate_arguments` (openapi_schema.py:75-77):
  models are data (field name to type tag and `ge`/`le` values). Validation is not
  modelled. A `minimum` of `null` is carried as the value `null`; pydantic would treat
  `ge=None` as no bound.
- `create_model` (openapi_schema.py:44) can itself raise on documents that `DerivedModels`
  maps to `Ok`: a property name with a leading underscore whose value is a `Field(...)`
  is refused by pydantic, and a property named after one of `create_model`'s own keyword
  parameters (`__base__`, `__config__`, ...) binds to that parameter instead of becoming a
  field. The model treats every property name as a plain field name.
- ConfigEntity.TypeDefaultsToString: the column default is modelled when the row is
  built. SQLAlchemy applies it only when the INSERT is emitted, so an ORM object built
  without a type holds `None` until it is flushed, and its `__repr__` shows `type='None'`.
  That pre-flush state is not modelled. No path of the core omits the type:
  `ConfigCreate.type` is required, and `DB.create` passes it.
- JSON numbers are `mantissa * 10^exponent` and are never compared. Only zero matters,
  because a zero `$ref` is false in Python. Float semantics are not modelled.
- JSON objects hold their members in insertion order, like Python dicts. Decoded dicts
  never repeat a key. Lemmas that rely on this require `DistinctKeys`.
