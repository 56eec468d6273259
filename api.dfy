/**
 * The HTTP handlers and the application lifespan (main.py). Each handler is a guard
 * over the store followed by at most one mutation; its contract is the HTTP-level
 * rule `Answers` for the reply and `Apply` for the table afterwards.
 */
module Api {
  import opened Wrappers
  import opened ConfigEntity
  import opened Store

  /** Request payloads (models/requests.py). */
  datatype ConfigCreate = ConfigCreate(key: string, value: string, kind: string)
  datatype ConfigUpdate = ConfigUpdate(value: string)

  /** A reply: one record or a list of records (the `ConfigResponse` shape), or an error detail. */
  datatype Body = Record(config: Config) | Records(configs: seq<Config>) | Detail(detail: string)
  datatype Response = Response(status: int, body: Body)

  const NotFound: Response := Response(404, Detail("Config not found"))
  const AlreadyExists: Response := Response(400, Detail("Config already exists"))

  /** The five routes: GET /configs, GET /configs/{key}, POST /configs, PUT /configs/{key}, DELETE /configs/{key}. */
  datatype Request =
    | GetConfigs
    | GetConfig(key: string)
    | PostConfig(create: ConfigCreate)
    | PutConfig(key: string, update: ConfigUpdate)
    | DeleteConfig(key: string)

  /** The reply a route owes for table `t`: 404 for a missing key, 400 for a duplicate create, else 200 with the record. */
  ghost predicate Answers(t: Table, req: Request, resp: Response)
  {
    match req
    case GetConfigs =>
      resp.status == 200 && resp.body.Records? && ListsTable(resp.body.configs, t)
    case GetConfig(k) =>
      resp == if k in t then Response(200, Record(t[k])) else NotFound
    case PostConfig(c) =>
      resp == if c.key in t then AlreadyExists else Response(200, Record(Config(c.key, c.value, c.kind)))
    case PutConfig(k, u) =>
      resp == if k in t then Response(200, Record(Config(k, u.value, t[k].kind))) else NotFound
    case DeleteConfig(k) =>
      resp == if k in t then Response(200, Record(t[k])) else NotFound
  }

  /** The table after a route runs on `t`. */
  function Apply(t: Table, req: Request): Table
  {
    match req
    case GetConfigs => t
    case GetConfig(_) => t
    case PostConfig(c) => if c.key in t then t else t[c.key := Config(c.key, c.value, c.kind)]
    case PutConfig(k, u) => if k in t then t[k := Config(k, u.value, t[k].kind)] else t
    case DeleteConfig(k) => t - {k}
  }

  /** The table after the requests run one after another. */
  function ApplyAll(t: Table, reqs: seq<Request>): Table
    decreases |reqs|
  {
    if reqs == [] then t else Apply(ApplyAll(t, reqs[..|reqs| - 1]), reqs[|reqs| - 1])
  }

  /** `resps` are the replies owed, in order, to `reqs` served one after another from `t`. */
  ghost predicate Trace(t: Table, reqs: seq<Request>, resps: seq<Response>)
    decreases |reqs|
  {
    && |reqs| == |resps|
    && (reqs != [] ==>
          var n := |reqs| - 1;
          Trace(t, reqs[..n], resps[..n]) && Answers(ApplyAll(t, reqs[..n]), reqs[n], resps[n]))
  }

  // ---------------------------------------------------------------- handlers

  /** GET /configs. */
  method ReadConfigs(db: DB) returns (resp: Response)
    requires db.Valid() && db.open
    ensures Answers(db.rows, GetConfigs, resp)
  {
    var configs := db.GetAll();
    resp := Response(200, Records(configs));
  }

  /** GET /configs/{key}: 404 exactly when the key is absent, otherwise 200 with its row. */
  method ReadConfig(db: DB, key: string) returns (resp: Response)
    requires db.Valid() && db.open
    ensures Answers(db.rows, GetConfig(key), resp)
    ensures resp.status == 404 <==> key !in db.rows
  {
    var config := db.Get(key);
    if config.None? {
      resp := NotFound;
    } else {
      assert config.value == db.rows[key];
      resp := Response(200, Record(config.value));
    }
  }

  /** POST /configs. */
  method CreateConfig(db: DB, config: ConfigCreate) returns (resp: Response)
    requires db.Valid() && db.open
    modifies db
    ensures db.Valid() && db.open
    ensures Answers(old(db.rows), PostConfig(config), resp)
    ensures db.rows == Apply(old(db.rows), PostConfig(config))
    ensures db.sessions == old(db.sessions)
  {
    var existing := db.Get(config.key);
    if existing.Some? {
      resp := AlreadyExists;
      return;
    }
    var created := db.Create(config.key, config.value, config.kind);
    resp := Response(200, Record(created));
  }

  /** PUT /configs/{key}. */
  method UpdateConfig(db: DB, key: string, update: ConfigUpdate) returns (resp: Response)
    requires db.Valid() && db.open
    modifies db
    ensures db.Valid() && db.open
    ensures Answers(old(db.rows), PutConfig(key, update), resp)
    ensures db.rows == Apply(old(db.rows), PutConfig(key, update))
    ensures db.sessions == old(db.sessions)
  {
    var config := db.Get(key);
    if config.None? {
      resp := NotFound;
      return;
    }
    var updated := db.Update(key, update.value);
    resp := Response(200, Record(updated));
  }

  /** DELETE /configs/{key}. */
  method DeleteConfigHandler(db: DB, key: string) returns (resp: Response)
    requires db.Valid() && db.open
    modifies db
    ensures db.Valid() && db.open
    ensures Answers(old(db.rows), DeleteConfig(key), resp)
    ensures db.rows == Apply(old(db.rows), DeleteConfig(key))
    ensures db.sessions == old(db.sessions)
  {
    var config := db.Delete(key);
    if config.None? {
      resp := NotFound;
      return;
    }
    resp := Response(200, Record(config.value));
  }

  /** Routes one request to its handler. */
  method Handle(db: DB, req: Request) returns (resp: Response)
    requires db.Valid() && db.open
    modifies db
    ensures db.Valid() && db.open
    ensures Answers(old(db.rows), req, resp)
    ensures db.rows == Apply(old(db.rows), req)
    ensures db.sessions == old(db.sessions)
  {
    match req
    case GetConfigs => resp := ReadConfigs(db);
    case GetConfig(k) => resp := ReadConfig(db, k);
    case PostConfig(c) => resp := CreateConfig(db, c);
    case PutConfig(k, u) => resp := UpdateConfig(db, k, u);
    case DeleteConfig(k) => resp := DeleteConfigHandler(db, k);
  }

  // ---------------------------------------------------------------- lifespan

  /** The attributes `lifespan` sets on `app.state`: each service under its name, in registry order. */
  function Published(registry: seq<(string, DB)>): (state: map<string, DB>)
    ensures state.Keys == set i | 0 <= i < |registry| :: registry[i].0
    ensures forall name :: name in state ==> exists i :: 0 <= i < |registry| && registry[i] == (name, state[name])
    decreases |registry|
  {
    if registry == [] then map[]
    else
      var n := |registry| - 1;
      var before := Published(registry[..n]);
      assert forall i :: 0 <= i < n ==> registry[..n][i] == registry[i];
      before[registry[n].0 := registry[n].1]
  }

  ghost function Services(registry: seq<(string, DB)>): set<DB>
  {
    set i | 0 <= i < |registry| :: registry[i].1
  }

  /** The first loop of `lifespan`: start every service and publish it. */
  method StartAll(registry: seq<(string, DB)>) returns (state: map<string, DB>)
    requires forall i :: 0 <= i < |registry| ==> registry[i].1.Valid()
    modifies Services(registry)
    ensures state == Published(registry)
    ensures forall i :: 0 <= i < |registry| ==>
      registry[i].1.Valid() && registry[i].1.open && registry[i].1.rows == old(registry[i].1.rows)
  {
    state := map[];
    for i := 0 to |registry|
      invariant state == Published(registry[..i])
      invariant forall j :: 0 <= j < |registry| ==> registry[j].1.Valid() && registry[j].1.rows == old(registry[j].1.rows)
      invariant forall j :: 0 <= j < i ==> registry[j].1.open
    {
      var (name, service) := registry[i];
      service.Start();
      state := state[name := service];
      assert registry[..i + 1][..i] == registry[..i];
    }
    assert registry[..|registry|] == registry;
  }

  /** The `finally` loop of `lifespan`: close every service. */
  method CloseAll(registry: seq<(string, DB)>)
    requires forall i :: 0 <= i < |registry| ==> registry[i].1.Valid()
    modifies Services(registry)
    ensures forall i :: 0 <= i < |registry| ==>
      registry[i].1.Valid() && !registry[i].1.open && registry[i].1.rows == old(registry[i].1.rows)
  {
    for i := 0 to |registry|
      invariant forall j :: 0 <= j < |registry| ==> registry[j].1.Valid() && registry[j].1.rows == old(registry[j].1.rows)
      invariant forall j :: 0 <= j < i ==> !registry[j].1.open
    {
      registry[i].1.Close();
    }
  }

  /** The serving phase (the `yield` of `lifespan`): requests handled in arrival order on one store. */
  method Serve(db: DB, requests: seq<Request>) returns (responses: seq<Response>)
    requires db.Valid() && db.open
    modifies db
    ensures db.Valid() && db.open
    ensures Trace(old(db.rows), requests, responses)
    ensures db.rows == ApplyAll(old(db.rows), requests)
    ensures db.sessions == old(db.sessions)
  {
    responses := [];
    for i := 0 to |requests|
      invariant db.Valid() && db.open
      invariant Trace(old(db.rows), requests[..i], responses)
      invariant db.rows == ApplyAll(old(db.rows), requests[..i])
      invariant db.sessions == old(db.sessions)
    {
      var resp := Handle(db, requests[i]);
      assert requests[..i + 1][..i] == requests[..i];
      assert (responses + [resp])[..i] == responses;
      responses := responses + [resp];
    }
    assert requests[..|requests|] == requests;
  }

  /** `lifespan`: start and publish every service, serve, then close every service. */
  method Lifespan(registry: seq<(string, DB)>, requests: seq<Request>) returns (state: map<string, DB>, responses: seq<Response>)
    requires forall i :: 0 <= i < |registry| ==> registry[i].1.Valid()
    requires "db" in Published(registry)
    modifies Services(registry)
    ensures state == Published(registry)
    ensures forall i :: 0 <= i < |registry| ==> registry[i].1.Valid() && !registry[i].1.open
    ensures var db := state["db"];
      Trace(old(db.rows), requests, responses) && db.rows == ApplyAll(old(db.rows), requests)
    ensures forall i :: 0 <= i < |registry| && registry[i].1 != state["db"] ==> registry[i].1.rows == old(registry[i].1.rows)
  {
    state := StartAll(registry);
    var db := state["db"];
    responses := Serve(db, requests);
    CloseAll(registry);
  }

  // ---------------------------------------------------------------- properties of the routes

  /** GET /configs/{key} answers 404 exactly when the key is absent, else 200 with its row. */
  lemma ReadStatus(t: Table, key: string, resp: Response)
    requires Answers(t, GetConfig(key), resp)
    ensures resp.status == 404 <==> key !in t
    ensures key in t ==> resp == Response(200, Record(t[key]))
  {
  }

  /** Every route answers 200, 400 or 404; 400 means a duplicate create and 404 a missing key. */
  lemma StatusCodes(t: Table, req: Request, resp: Response)
    requires Answers(t, req, resp)
    ensures resp.status == 200 || resp.status == 400 || resp.status == 404
    ensures resp.status == 400 <==> req.PostConfig? && req.create.key in t
    ensures resp.status == 404 <==> !req.GetConfigs? && !req.PostConfig? && req.key !in t
  {
  }

  /** A route that answers with an error leaves the table as it was. */
  lemma ErrorHasNoEffect(t: Table, req: Request, resp: Response)
    requires Answers(t, req, resp) && resp.status != 200
    ensures Apply(t, req) == t
  {
  }

  /** Every route keeps each row stored under its own key. */
  lemma ApplyKeepsKeyed(t: Table, req: Request)
    requires Keyed(t)
    ensures Keyed(Apply(t, req))
  {
  }

  lemma {:induction false} ApplyAllKeepsKeyed(t: Table, reqs: seq<Request>)
    requires Keyed(t)
    ensures Keyed(ApplyAll(t, reqs))
    decreases |reqs|
  {
    if reqs != [] {
      ApplyAllKeepsKeyed(t, reqs[..|reqs| - 1]);
      ApplyKeepsKeyed(ApplyAll(t, reqs[..|reqs| - 1]), reqs[|reqs| - 1]);
    }
  }

  /** A create of a new key stores the request's record, and a following read returns it. */
  lemma CreateThenRead(t: Table, c: ConfigCreate, created: Response, read: Response)
    requires c.key !in t
    requires Answers(t, PostConfig(c), created)
    requires Answers(Apply(t, PostConfig(c)), GetConfig(c.key), read)
    ensures created == read == Response(200, Record(Config(c.key, c.value, c.kind)))
    ensures forall k :: k in t ==> k in Apply(t, PostConfig(c)) && Apply(t, PostConfig(c))[k] == t[k]
  {
  }

  /** An update of a present key replaces its value only: key, type and every other row stay. */
  lemma UpdateChangesOnlyValue(t: Table, key: string, u: ConfigUpdate)
    requires Keyed(t) && key in t
    ensures var t' := Apply(t, PutConfig(key, u));
      && t'.Keys == t.Keys
      && t'[key].key == t[key].key && t'[key].kind == t[key].kind && t'[key].value == u.value
      && forall k :: k in t && k != key ==> t'[k] == t[k]
  {
  }

  /** A delete of a present key returns its last row, removes only it, and a following read answers 404. */
  lemma DeleteThenRead(t: Table, key: string, deleted: Response, read: Response)
    requires key in t
    requires Answers(t, DeleteConfig(key), deleted)
    requires Answers(Apply(t, DeleteConfig(key)), GetConfig(key), read)
    ensures deleted == Response(200, Record(t[key]))
    ensures read == NotFound
    ensures Apply(t, DeleteConfig(key)).Keys == t.Keys - {key}
  {
  }

  /** The i-th reply of a trace is the one owed to the i-th request on the table the first i requests leave. */
  lemma {:induction false} TraceAt(t: Table, reqs: seq<Request>, resps: seq<Response>, i: nat)
    requires Trace(t, reqs, resps) && i < |reqs|
    ensures i < |resps| && Answers(ApplyAll(t, reqs[..i]), reqs[i], resps[i])
    decreases |reqs|
  {
    var n := |reqs| - 1;
    if i < n {
      TraceAt(t, reqs[..n], resps[..n], i);
      assert reqs[..n][..i] == reqs[..i];
    }
  }

  /** POST, GET, PUT, GET, DELETE, GET on a new key answer the created record twice, the updated one three times, then 404. */
  lemma RoundTrip(t: Table, key: string, value: string, kind: string, newValue: string, resps: seq<Response>)
    requires key !in t
    requires Trace(t, RoundTripRequests(key, value, kind, newValue), resps)
    ensures var created, updated := Config(key, value, kind), Config(key, newValue, kind);
      resps == [Response(200, Record(created)), Response(200, Record(created)),
                Response(200, Record(updated)), Response(200, Record(updated)),
                Response(200, Record(updated)), NotFound]
    ensures ApplyAll(t, RoundTripRequests(key, value, kind, newValue)) == t
  {
    var reqs := RoundTripRequests(key, value, kind, newValue);
    var created, updated := Config(key, value, kind), Config(key, newValue, kind);
    var t1 := t[key := created];
    var t2 := t[key := updated];
    assert ApplyAll(t, reqs[..0]) == t;
    assert reqs[..1][..0] == reqs[..0];
    assert ApplyAll(t, reqs[..1]) == t1;
    assert reqs[..2][..1] == reqs[..1];
    assert ApplyAll(t, reqs[..2]) == t1;
    assert reqs[..3][..2] == reqs[..2];
    assert ApplyAll(t, reqs[..3]) == t2;
    assert reqs[..4][..3] == reqs[..3];
    assert ApplyAll(t, reqs[..4]) == t2;
    assert reqs[..5][..4] == reqs[..4];
    assert ApplyAll(t, reqs[..5]) == t;
    assert reqs[..6] == reqs;
    TraceAt(t, reqs, resps, 0);
    TraceAt(t, reqs, resps, 1);
    TraceAt(t, reqs, resps, 2);
    TraceAt(t, reqs, resps, 3);
    TraceAt(t, reqs, resps, 4);
    TraceAt(t, reqs, resps, 5);
  }

  function RoundTripRequests(key: string, value: string, kind: string, newValue: string): seq<Request>
  {
    [PostConfig(ConfigCreate(key, value, kind)), GetConfig(key), PutConfig(key, ConfigUpdate(newValue)),
     GetConfig(key), DeleteConfig(key), GetConfig(key)]
  }

  /** The round trip served by the handlers on a live store. */
  method RoundTripThroughHandlers(db: DB, key: string, value: string, kind: string, newValue: string)
    returns (resps: seq<Response>)
    requires db.Valid() && db.open && key !in db.rows
    modifies db
    ensures db.Valid() && db.open && db.rows == old(db.rows)
    ensures var created, updated := Config(key, value, kind), Config(key, newValue, kind);
      resps == [Response(200, Record(created)), Response(200, Record(created)),
                Response(200, Record(updated)), Response(200, Record(updated)),
                Response(200, Record(updated)), NotFound]
  {
    ghost var before := db.rows;
    resps := Serve(db, RoundTripRequests(key, value, kind, newValue));
    RoundTrip(before, key, value, kind, newValue, resps);
  }

  /** A concrete round trip: creating, reading, flipping, deleting and re-reading the flag `feature_x`. */
  lemma FeatureFlagScenario(t: Table, resps: seq<Response>)
    requires "feature_x" !in t
    requires Trace(t, RoundTripRequests("feature_x", "true", "boolean", "false"), resps)
    ensures resps[0] == resps[1] == Response(200, Record(Config("feature_x", "true", "boolean")))
    ensures resps[2] == resps[3] == resps[4] == Response(200, Record(Config("feature_x", "false", "boolean")))
    ensures resps[5] == Response(404, Detail("Config not found"))
  {
    RoundTrip(t, "feature_x", "true", "boolean", "false", resps);
  }
}
