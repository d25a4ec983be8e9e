/** The mock-data fallback inside `createProxyMiddleware` (api-gateway/server.js): what the
    gateway answers when the health probe of a service did not complete. */
module Fallback {
  import opened Results
  import opened Json
  import opened MockData

  /** The part of an Express request the fallback looks at: `req.method` (here `verb`) and `req.path`. */
  datatype Request = Request(verb: string, path: string)

  /** `res.status(code).json(body)`; `res.json(body)` alone has status 200. */
  datatype HttpResponse = HttpResponse(status: nat, body: Json)

  /** One service's row of the fallback table: the exact collection path, the member
      name of the list in the collection answer, and the body of the 404 answer. */
  datatype Rule = Rule(collectionPath: string, listKey: string, notFound: string)

  function RuleFor(service: string): Option<Rule>
  {
    if service == "user-service" then Some(Rule("/api/users", "users", "User not found"))
    else if service == "product-service" then Some(Rule("/api/products", "products", "Product not found"))
    else if service == "order-service" then Some(Rule("/api/orders", "orders", "Order not found"))
    else None
  }

  /** The records of `mockServices[service][listKey]`. */
  function Records(service: string, loadedAt: string): seq<Json>
  {
    if service == "user-service" then MockUsers(loadedAt)
    else if service == "product-service" then MockProducts(loadedAt)
    else if service == "order-service" then MockOrders(loadedAt)
    else []
  }

  /** `\w` of a JavaScript regular expression. */
  predicate IsWordChar(c: char)
  {
    ('a' <= c <= 'z') || ('A' <= c <= 'Z') || ('0' <= c <= '9') || c == '_'
  }

  /** `path.match(/\/api\/<coll>\/\w+/)` is truthy: the pattern is not anchored, so it
      may match anywhere in the path. */
  predicate MatchesById(path: string, collectionPath: string)
  {
    exists i :: 0 <= i < |path| && ByIdPatternAt(path, collectionPath + "/", i)
  }

  /** `prefix` followed by one word character occurs at index `i` of `path`. */
  predicate ByIdPatternAt(path: string, prefix: string, i: nat)
  {
    i + |prefix| < |path| && path[i..i + |prefix|] == prefix && IsWordChar(path[i + |prefix|])
  }

  /** `path.split('/').pop()`: the text after the last `/`, or the whole path when it
      has none. */
  function LastSegment(path: string): (r: string)
    ensures '/' !in r
    ensures |r| <= |path| && r == path[|path| - |r|..]
    ensures |r| == |path| || path[|path| - |r| - 1] == '/'
  {
    if path == [] then ""
    else if path[|path| - 1] == '/' then ""
    else
      var r := LastSegment(path[..|path| - 1]);
      assert path[..|path| - 1][|path| - 1 - |r|..] == path[|path| - 1 - |r|..|path| - 1];
      r + [path[|path| - 1]]
  }

  /** `records.find(r => r.id === id)`: the first record whose `id` is the string `id`. */
  function FindById(records: seq<Json>, id: string): (r: Option<Json>)
    ensures r.Some? ==> exists k :: 0 <= k < |records| && records[k] == r.value
                          && Get(r.value, "id") == Some(JStr(id))
                          && forall j :: 0 <= j < k ==> Get(records[j], "id") != Some(JStr(id))
    ensures r.None? ==> forall k :: 0 <= k < |records| ==> Get(records[k], "id") != Some(JStr(id))
  {
    if records == [] then None
    else if Get(records[0], "id") == Some(JStr(id)) then Some(records[0])
    else
      var r := FindById(records[1..], id);
      assert forall k :: 1 <= k < |records| ==> records[k] == records[1..][k - 1];
      r
  }

  const MockNotice := "This is a mock response. In a production environment, this would connect to the actual microservice."
  const StartHint := "To see the full functionality, please start the corresponding microservice."

  function UnavailableError(service: string): string
  {
    "Service " + service + " unavailable"
  }

  /** The 503 answer for every method and path the table does not cover. */
  function MockUnavailable(service: string): HttpResponse
  {
    HttpResponse(503, JObj([("error", JStr(UnavailableError(service))), ("message", JStr(MockNotice)), ("note", JStr(StartHint))]))
  }

  /** The fallback table, first match wins: GET on the exact collection path, GET on a
      by-id path, anything else. */
  function FallbackResponse(service: string, req: Request, loadedAt: string): (r: HttpResponse)
    ensures r.status in {200, 404, 503}
    ensures RuleFor(service).None? || req.verb != "GET" ==> r == MockUnavailable(service)
    ensures r.status == 404 ==> FindById(Records(service, loadedAt), LastSegment(req.path)).None?
  {
    match RuleFor(service)
    case None => MockUnavailable(service)
    case Some(rule) =>
      var records := Records(service, loadedAt);
      if req.path == rule.collectionPath && req.verb == "GET" then
        HttpResponse(200, JObj([(rule.listKey, JArr(records)), ("total", JInt(|records|))]))
      else if MatchesById(req.path, rule.collectionPath) && req.verb == "GET" then
        match FindById(records, LastSegment(req.path))
        case Some(record) => HttpResponse(200, record)
        case None => HttpResponse(404, JObj([("error", JStr(rule.notFound))]))
      else MockUnavailable(service)
  }

  /** GET on the exact collection path returns the whole mock list with `total` equal to
      its length. */
  lemma CollectionAnswer(service: string, req: Request, loadedAt: string)
    requires RuleFor(service).Some? && req.verb == "GET" && req.path == RuleFor(service).value.collectionPath
    ensures FallbackResponse(service, req, loadedAt).status == 200
    ensures Get(FallbackResponse(service, req, loadedAt).body, RuleFor(service).value.listKey) == Some(JArr(Records(service, loadedAt)))
    ensures Get(FallbackResponse(service, req, loadedAt).body, "total") == Some(JInt(|Records(service, loadedAt)|))
    ensures Keys(FallbackResponse(service, req, loadedAt).body) == [RuleFor(service).value.listKey, "total"]
  {
    var ms := FallbackResponse(service, req, loadedAt).body.members;
    assert ms[1..][0].0 == "total";
  }

  /** GET on a by-id path returns the first mock record whose id is the last path segment,
      and a 404 with the domain message when there is none. */
  lemma ByIdAnswer(service: string, req: Request, loadedAt: string)
    requires RuleFor(service).Some? && req.verb == "GET"
    requires req.path != RuleFor(service).value.collectionPath && MatchesById(req.path, RuleFor(service).value.collectionPath)
    ensures var records := Records(service, loadedAt);
            var id := LastSegment(req.path);
            var resp := FallbackResponse(service, req, loadedAt);
            && (FindById(records, id).Some? ==>
                  resp.status == 200 && resp.body in records && Get(resp.body, "id") == Some(JStr(id)))
            && (FindById(records, id).None? ==>
                  (forall k :: 0 <= k < |records| ==> Get(records[k], "id") != Some(JStr(id)))
                  && resp == HttpResponse(404, JObj([("error", JStr(RuleFor(service).value.notFound))])))
  {
  }

  /** Every other request gets a 503 whose body has exactly the members error, message
      and note. */
  lemma OtherRequestsUnavailable(service: string, req: Request, loadedAt: string)
    requires RuleFor(service).None? || req.verb != "GET"
             || (req.path != RuleFor(service).value.collectionPath && !MatchesById(req.path, RuleFor(service).value.collectionPath))
    ensures FallbackResponse(service, req, loadedAt).status == 503
    ensures Keys(FallbackResponse(service, req, loadedAt).body) == ["error", "message", "note"]
    ensures Get(FallbackResponse(service, req, loadedAt).body, "error") == Some(JStr(UnavailableError(service)))
    ensures Get(FallbackResponse(service, req, loadedAt).body, "message") == Some(JStr(MockNotice))
    ensures Get(FallbackResponse(service, req, loadedAt).body, "note") == Some(JStr(StartHint))
    ensures FallbackResponse(service, req, loadedAt) == MockUnavailable(service)
  {
    GetOfThree("error", JStr(UnavailableError(service)), "message", JStr(MockNotice), "note", JStr(StartHint));
  }

  /** Concrete requests against the dataset: a present user id, */
  lemma UserByIdExample(loadedAt: string)
    ensures FallbackResponse("user-service", Request("GET", "/api/users/2"), loadedAt) == HttpResponse(200, MockUsers(loadedAt)[1])
  {
    var p := "/api/users/2";
    assert "/api/users" + "/" == "/api/users/";
    assert ByIdPatternAt(p, "/api/users" + "/", 0);
    assert LastSegment(p[..11]) == "";
    assert LastSegment(p) == "2";
    var users := MockUsers(loadedAt);
    assert Get(users[0], "id") == Some(JStr("1"));
    assert Get(users[1], "id") == Some(JStr("2"));
    assert FindById(users, "2") == Some(users[1]);
    assert RuleFor("user-service") == Some(Rule("/api/users", "users", "User not found"));
    assert Records("user-service", loadedAt) == users;
    assert p != "/api/users";
    assert MatchesById(p, "/api/users");
  }

  /** an absent order id, */
  lemma MissingOrderExample(loadedAt: string)
    ensures FallbackResponse("order-service", Request("GET", "/api/orders/7"), loadedAt)
            == HttpResponse(404, JObj([("error", JStr("Order not found"))]))
  {
    var req := Request("GET", "/api/orders/7");
    assert RuleFor("order-service") == Some(Rule("/api/orders", "orders", "Order not found"));
    OrderSevenPath();
    NoOrderSeven(loadedAt);
    ByIdAnswer("order-service", req, loadedAt);
  }

  lemma OrderSevenPath()
    ensures "/api/orders/7" != "/api/orders" && MatchesById("/api/orders/7", "/api/orders")
    ensures LastSegment("/api/orders/7") == "7"
  {
    var q := "/api/orders/7";
    assert "/api/orders" + "/" == "/api/orders/";
    assert ByIdPatternAt(q, "/api/orders" + "/", 0);
    assert LastSegment(q[..12]) == "";
  }

  lemma NoOrderSeven(loadedAt: string)
    ensures FindById(Records("order-service", loadedAt), "7") == None
  {
    var orders := MockOrders(loadedAt);
    assert Records("order-service", loadedAt) == orders;
    assert Get(orders[0], "id") == Some(JStr("1"));
    assert orders[1..] == [];
  }

  /** and a write. */
  lemma ProductWriteExample(loadedAt: string)
    ensures FallbackResponse("product-service", Request("POST", "/api/products"), loadedAt) == MockUnavailable("product-service")
  {
  }
}
