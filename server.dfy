/** The two write routes of backend/server.js. The library file is a
    parameter (`stored`, absent when it cannot be read) and whether the write
    succeeded is a parameter too (`persisted`). */
module Server {
  import opened Types
  import opened Upsert

  /** A JSON request body. */
  datatype Json = JNull | JBool(b: bool) | JNumber(n: int) | JString(s: string)
                | JArray(items: seq<Json>) | JObject(fields: seq<(string, Json)>)

  /** JavaScript truthiness of a parsed body. */
  predicate Truthy(j: Json)
  {
    match j
    case JNull => false
    case JBool(b) => b
    case JNumber(n) => n != 0
    case JString(s) => s != ""
    case _ => true
  }

  /** `typeof` of a parsed body. */
  function TypeOf(j: Json): string
  {
    match j
    case JNull => "object"
    case JBool(_) => "boolean"
    case JNumber(_) => "number"
    case JString(_) => "string"
    case _ => "object"
  }

  datatype Status = Ok | BadRequest | PersistFailed

  /** `POST /api/library`: the body must be a truthy object; then the write decides. */
  function HandleLibraryPost(body: Option<Json>, persisted: bool): (r: Status)
    ensures r == Ok <==> persisted && body.Some? && (body.value.JObject? || body.value.JArray?)
    ensures r == BadRequest <==> !(body.Some? && (body.value.JObject? || body.value.JArray?))
  {
    if body.None? || !Truthy(body.value) || TypeOf(body.value) != "object" then BadRequest
    else if !persisted then PersistFailed
    else Ok
  }

  /** A dependency request: `main` is absent when it is missing or falsy, `subs`
      when it is missing or not an array. */
  datatype DependencyRequest = DependencyRequest(main: Option<PayloadRow>, subs: Option<seq<PayloadRow>>)

  datatype DependencyReply = Rejected | NotSaved | Saved(saved: Upsertion)

  /** The library the route starts from: the file, or the empty library when it cannot be read. */
  function StoredOrEmpty(stored: Option<LibraryData>): LibraryData
  {
    if stored.Some? then stored.value else EmptyLibrary
  }

  /** `POST /api/dependencies`: reject a request without a main row or a sub
      list; otherwise upsert with the `||` rule and write the result. */
  function HandleDependencies(req: DependencyRequest, stored: Option<LibraryData>, persisted: bool): (r: DependencyReply)
    ensures r.Rejected? <==> req.main.None? || req.subs.None?
    ensures r.NotSaved? <==> req.main.Some? && req.subs.Some? && !persisted
    ensures r.Saved? ==>
              && r.saved.mainId == ResolveId(req.main.value.id, req.main.value.name, Falsy)
              && |r.saved.subIds| == |req.subs.value|
              && (forall i :: 0 <= i < |r.saved.subIds| ==>
                    r.saved.subIds[i] == ResolveId(req.subs.value[i].id, req.subs.value[i].name, Falsy))
              && Settled(r.saved.lib.processes, r.saved.mainId, req.main.value.name)
              && (forall i :: 0 <= i < |r.saved.subIds| ==>
                    Settled(r.saved.lib.processes, r.saved.subIds[i], req.subs.value[i].name))
              && (forall i :: 0 <= i < |r.saved.subIds| ==>
                    HasKey(r.saved.lib.links, EdgeKey(ContainsLink(r.saved.mainId, r.saved.subIds[i]))))
              && Grows(StoredOrEmpty(stored).processes, r.saved.lib.processes)
              && |StoredOrEmpty(stored).links| <= |r.saved.lib.links|
              && r.saved.lib.links[..|StoredOrEmpty(stored).links|] == StoredOrEmpty(stored).links
              && r.saved.lib.buildingBlocks == StoredOrEmpty(stored).buildingBlocks
              && r.saved.lib.notes == StoredOrEmpty(stored).notes
  {
    if req.main.None? || req.subs.None? then Rejected
    else
      var table := DependencyPayload(req.main.value, req.subs.value);
      UpsertedProperties(StoredOrEmpty(stored), table, Falsy);
      var u := Upserted(StoredOrEmpty(stored), table, Falsy);
      if !persisted then NotSaved else Saved(u)
  }

  /** Sending the same request again, against what the first one saved, saves the same library and ids. */
  lemma ResendIsNoOp(req: DependencyRequest, stored: Option<LibraryData>)
    requires HandleDependencies(req, stored, true).Saved?
    ensures HandleDependencies(req, Some(HandleDependencies(req, stored, true).saved.lib), true)
            == HandleDependencies(req, stored, true)
  {
    UpsertIdempotent(StoredOrEmpty(stored), DependencyPayload(req.main.value, req.subs.value), Falsy);
  }

  /** The store posts the table it imported; when no row has an empty id the
      server saves the same library, main id and sub ids the store computed
      from the same starting library. */
  lemma ServerRepeatsStore(table: DependencyPayload, lib: LibraryData)
    requires table.main.id != Some("")
    requires forall i :: 0 <= i < |table.subs| ==> table.subs[i].id != Some("")
    ensures HandleDependencies(DependencyRequest(Some(table.main), Some(table.subs)), Some(lib), true)
            == Saved(Upserted(lib, table, Nullish))
  {
    StoreAndServerAgree(lib, table);
  }

  /** With an empty id the two differ: the store keeps the empty id, the server generates one. */
  lemma EmptyIdDiverges(lib: LibraryData, name: string)
    ensures var table := DependencyPayload(PayloadRow(Some(""), name), []);
            && Upserted(lib, table, Nullish).mainId == ""
            && HandleDependencies(DependencyRequest(Some(table.main), Some([])), Some(lib), true).saved.mainId == GenId(name)
  {
    ResolveRulesAgree(Some(""), name);
  }
}
